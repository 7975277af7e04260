/** Mount routing with the local authorizer in front: one backend per namespace, no fallback. Held
    secrets stay where their namespace points, and commands that manage namespaces neither orphan nor
    resurrect one. */
module Federation {
  import opened Basics
  import opened Names
  import opened Port
  import opened Config

  /** A registered backend: what it offers, whether it reads through a bound locator, the secrets it
      holds by address, and what lies behind its locators. Each has a store of its own. */
  datatype Backend = Backend(
    offers: set<Capability>,
    requiresBinding: bool,
    held: Vault,
    external: map<Locator, Revealed>)

  datatype Fed = Fed(settings: Settings, backends: map<BackendRef, Backend>)

  // ---- The local authorizer ----

  datatype Resource = TenantOnly(tenant: string) | TenantAndUser(tenant: string, user: string)

  datatype Denial = TenantDenied | UserDenied

  /** Every action gets the same answer: tenant `default`, then user `default`, in any namespace. */
  function Decide(resource: Resource): Result<(), Denial> {
    if resource.tenant != DEFAULT then Err(TenantDenied)
    else if resource.TenantAndUser? && resource.user != DEFAULT then Err(UserDenied)
    else Ok(())
  }

  /** The tenant is looked at first, whoever the user is. */
  lemma DecideIff(resource: Resource)
    ensures Decide(resource) == Err(TenantDenied) <==> resource.tenant != "default"
    ensures Decide(resource) == Err(UserDenied) <==> resource.tenant == "default" && resource.TenantAndUser? && resource.user != "default"
  {
  }

  // ---- Resolution ----

  /** Steps 1 and 2: the registered backend the scope's namespace is mounted on. */
  function Mounted(f: Fed, scope: Scope): Result<BackendRef, StorageError> {
    var key := KeyOf(scope);
    if key !in f.settings.namespaces then Err(NotFound)
    else
      var b := EffectiveMount(f.settings.namespaces[key]);
      if b in f.backends then Ok(b) else Err(NotFound)
  }

  /** Steps 3 and 4: what the command needs, and the locator bound to the address where one is
      required. */
  function Resolve(f: Fed, a: Address, needs: set<Capability>): (r: Result<(BackendRef, Target), StorageError>)
    ensures r.Ok? ==>
      && Mounted(f, a.scope) == Ok(r.value.0) && r.value.0 in f.backends
      && r.value.1.address == a && needs <= f.backends[r.value.0].offers
  {
    match Mounted(f, a.scope)
    case Err(error) => Err(error)
    case Ok(b) =>
      if !(needs <= f.backends[b].offers) then Err(Unsupported)
      else if !f.backends[b].requiresBinding then Ok((b, Target(a, None)))
      else if a !in f.settings.bindings then Err(NotFound)
      else Ok((b, Target(a, Some(f.settings.bindings[a]))))
  }

  function BackendRead(b: Backend, t: Target): Result<Revealed, StorageError> {
    if b.requiresBinding then
      if t.locator.Some? && t.locator.value in b.external then Ok(b.external[t.locator.value]) else Err(NotFound)
    else ReadOf(b.held, t.address)
  }

  /** The routed read, below the authorizer. */
  function RoutedRead(f: Fed, a: Address): Result<Revealed, StorageError> {
    match Resolve(f, a, {CanRead})
    case Err(error) => Err(error)
    case Ok((b, t)) => BackendRead(f.backends[b], t)
  }

  /** What the port answers to a read: the authorizer, then the one backend. */
  function ReadPort(f: Fed, a: Address): Result<Revealed, StorageError> {
    if Decide(TenantAndUser(a.scope.tenant, a.scope.user)).Err? then Err(Denied) else RoutedRead(f, a)
  }

  // ---- Commands ----

  // A write or rename comes with the version its backend gives the value it leaves.
  datatype Command =
    | Add(key: NamespaceKey, mount: Mount)
    | Remove(key: NamespaceKey)
    | Remount(key: NamespaceKey, to: BackendRef)
    | Bind(address: Address, locator: Locator)
    | Unbind(address: Address)
    | Write(address: Address, value: SecretValue, version: Version)
    | Delete(address: Address)
    | Rename(address: Address, newName: SecretName, version: Version)

  function ResourceOf(command: Command): Resource {
    match command
    case Add(key, _) => TenantOnly(key.tenant)
    case Remove(key) => TenantOnly(key.tenant)
    case Remount(key, _) => TenantOnly(key.tenant)
    case Bind(a, _) => TenantAndUser(a.scope.tenant, a.scope.user)
    case Unbind(a) => TenantAndUser(a.scope.tenant, a.scope.user)
    case Write(a, _, _) => TenantAndUser(a.scope.tenant, a.scope.user)
    case Delete(a) => TenantAndUser(a.scope.tenant, a.scope.user)
    case Rename(a, _, _) => TenantAndUser(a.scope.tenant, a.scope.user)
  }

  predicate ListsAny(b: Backend, scope: Scope) {
    exists a :: a in b.held && a.scope == scope
  }

  /** Whether the namespace's current backend lists anything for local mode's one user. */
  predicate HoldsSecrets(f: Fed, key: NamespaceKey)
    requires key in f.settings.namespaces
  {
    var b := EffectiveMount(f.settings.namespaces[key]);
    b in f.backends && CanList in f.backends[b].offers && ListsAny(f.backends[b], Scope(key.tenant, key.namespace, DEFAULT))
  }

  function AddTo(f: Fed, key: NamespaceKey, mount: Mount): Result<Fed, StorageError> {
    if key in f.settings.namespaces then Err(Conflict)
    else if EffectiveMount(mount) !in f.backends then Err(NotFound)
    else Ok(f.(settings := f.settings.(namespaces := f.settings.namespaces[key := mount])))
  }

  function RemoveFrom(f: Fed, key: NamespaceKey): Result<Fed, StorageError> {
    if key.namespace == DEFAULT then Err(Conflict)
    else if key !in f.settings.namespaces then Err(NotFound)
    else if HasBindings(f.settings, key) || HoldsSecrets(f, key) then Err(Conflict)
    else Ok(f.(settings := f.settings.(namespaces := f.settings.namespaces - {key})))
  }

  function RemountIn(f: Fed, key: NamespaceKey, to: BackendRef): Result<Fed, StorageError> {
    if key !in f.settings.namespaces then Err(NotFound)
    else if to !in f.backends then Err(NotFound)
    else if HoldsSecrets(f, key) then Err(Conflict)
    else Ok(f.(settings := f.settings.(namespaces := f.settings.namespaces[key := Some(to)])))
  }

  function BindIn(f: Fed, a: Address, locator: Locator): Result<Fed, StorageError> {
    if KeyOf(a.scope) !in f.settings.namespaces then Err(NotFound)
    else if a in f.settings.bindings then Err(Conflict)
    else Ok(f.(settings := f.settings.(bindings := f.settings.bindings[a := locator])))
  }

  function UnbindIn(f: Fed, a: Address): Result<Fed, StorageError> {
    if a !in f.settings.bindings then Err(NotFound)
    else Ok(f.(settings := f.settings.(bindings := f.settings.bindings - {a})))
  }

  function WithHeld(f: Fed, b: BackendRef, held: Vault): Fed
    requires b in f.backends
  {
    f.(backends := f.backends[b := f.backends[b].(held := held)])
  }

  function WriteIn(f: Fed, a: Address, value: SecretValue, version: Version): Result<Fed, StorageError> {
    match Resolve(f, a, {CanWrite})
    case Err(error) => Err(error)
    case Ok((b, _)) => Ok(WithHeld(f, b, f.backends[b].held[a := Stored(value, version)]))
  }

  function DeleteIn(f: Fed, a: Address): Result<Fed, StorageError> {
    match Resolve(f, a, {CanDelete})
    case Err(error) => Err(error)
    case Ok((b, _)) =>
      if a !in f.backends[b].held then Err(NotFound) else Ok(WithHeld(f, b, f.backends[b].held - {a}))
  }

  function Copied(held: Vault, from: Address, to: Address, version: Version): Vault
    requires from in held
  {
    held[to := Stored(held[from].value, version)]
  }

  /** Bindings never move: a bound name is neither renamed nor renamed onto. */
  function RenameIn(f: Fed, a: Address, newName: SecretName, version: Version): Result<Fed, StorageError> {
    match Resolve(f, a, {CanWrite, CanDelete})
    case Err(error) => Err(error)
    case Ok((b, _)) =>
      var to := Address(a.scope, newName);
      var held := f.backends[b].held;
      if a in f.settings.bindings || to in f.settings.bindings then Err(Conflict)
      else if a !in held then Err(NotFound)
      else if to in held then Err(Conflict)
      else Ok(WithHeld(f, b, Copied(held, a, to, version) - {a}))
  }

  /** A rename whose old name could not be deleted, nor its copy taken back: the value under both. */
  function HalfRenamed(f: Fed, a: Address, newName: SecretName, version: Version): Fed
    requires RenameIn(f, a, newName, version).Ok?
  {
    var b := Resolve(f, a, {CanWrite, CanDelete}).value.0;
    WithHeld(f, b, Copied(f.backends[b].held, a, Address(a.scope, newName), version))
  }

  function Carried(f: Fed, command: Command): Result<Fed, StorageError> {
    match command
    case Add(key, mount) => AddTo(f, key, mount)
    case Remove(key) => RemoveFrom(f, key)
    case Remount(key, to) => RemountIn(f, key, to)
    case Bind(a, locator) => BindIn(f, a, locator)
    case Unbind(a) => UnbindIn(f, a)
    case Write(a, value, version) => WriteIn(f, a, value, version)
    case Delete(a) => DeleteIn(f, a)
    case Rename(a, newName, version) => RenameIn(f, a, newName, version)
  }

  function Commanded(f: Fed, command: Command): Result<Fed, StorageError> {
    if Decide(ResourceOf(command)).Err? then Err(Denied) else Carried(f, command)
  }

  /** A command that works, one a store or backend fails with no effect, one whose effect is not
      answered for, and a rename left half done. */
  datatype Luck = Works | Fails(error: StorageError) | Unheard(error: StorageError) | HalfDone(error: StorageError)

  /** What a command comes to below the authorizer. Removing the default namespace is refused before
      any store is asked. */
  function Met(f: Fed, command: Command, luck: Luck): (Fed, Result<(), StorageError>) {
    if command.Remove? && command.key.namespace == DEFAULT then (f, Err(Conflict))
    else
      match (luck, Carried(f, command))
      case (Works, Ok(after)) => (after, Ok(()))
      case (Works, Err(error)) => (f, Err(error))
      case (Unheard(error), Ok(after)) => (after, Err(error))
      case (HalfDone(error), Ok(_)) => (if command.Rename? then HalfRenamed(f, command.address, command.newName, command.version) else f, Err(error))
      case _ => (f, Err(luck.error))
  }

  function Obeyed(f: Fed, command: Command, luck: Luck): (Fed, Result<(), StorageError>) {
    if Decide(ResourceOf(command)).Err? then (f, Err(Denied)) else Met(f, command, luck)
  }

  // ---- No orphans ----

  /** A backend that can change what it holds can list it, and one that cannot list holds nothing. */
  predicate Accountable(b: Backend) {
    && (CanWrite in b.offers || CanDelete in b.offers ==> CanList in b.offers)
    && (CanList !in b.offers ==> b.held == map[])
  }

  /** The secret lies in the one backend its existing namespace is mounted on, and is the local
      user's. */
  predicate Home(s: Settings, b: BackendRef, a: Address) {
    && a.scope.tenant == DEFAULT && a.scope.user == DEFAULT
    && KeyOf(a.scope) in s.namespaces && EffectiveMount(s.namespaces[KeyOf(a.scope)]) == b
  }

  predicate AllHome(s: Settings, b: BackendRef, backend: Backend) {
    forall a | a in backend.held :: Home(s, b, a)
  }

  predicate Placed(f: Fed) {
    forall b | b in f.backends :: Accountable(f.backends[b]) && AllHome(f.settings, b, f.backends[b])
  }

  predicate BindingsPlaced(s: Settings) {
    forall a | a in s.bindings :: KeyOf(a.scope) in s.namespaces
  }

  predicate NoOrphans(f: Fed) {
    Placed(f) && BindingsPlaced(f.settings)
  }

  lemma HeldKeepsPlaced(f: Fed, b: BackendRef, held: Vault)
    requires NoOrphans(f) && b in f.backends && CanList in f.backends[b].offers
    requires forall a | a in held :: Home(f.settings, b, a)
    ensures NoOrphans(WithHeld(f, b, held))
  {
    hide Home;
  }

  predicate SecretCommand(command: Command) {
    command.Write? || command.Delete? || command.Rename?
  }

  function Needs(command: Command): set<Capability>
    requires SecretCommand(command)
  {
    if command.Write? then {CanWrite} else if command.Delete? then {CanDelete} else {CanWrite, CanDelete}
  }

  /** What the backend holds once the command is carried out. */
  function HeldAfter(held: Vault, command: Command): Vault
    requires SecretCommand(command) && (command.Rename? ==> command.address in held)
  {
    var a := command.address;
    match command
    case Write(_, value, version) => held[a := Stored(value, version)]
    case Delete(_) => held - {a}
    case Rename(_, newName, version) => Copied(held, a, Address(a.scope, newName), version) - {a}
  }

  /** The backend a secret command reaches, and what it does there. */
  lemma CarriedHeld(f: Fed, command: Command)
    requires SecretCommand(command) && Carried(f, command).Ok?
    ensures var b := Resolve(f, command.address, Needs(command)).value.0;
            && Mounted(f, command.address.scope) == Ok(b) && b in f.backends && Needs(command) <= f.backends[b].offers
            && (command.Rename? ==> command.address in f.backends[b].held)
            && Carried(f, command).value == WithHeld(f, b, HeldAfter(f.backends[b].held, command))
  {
  }

  lemma PortKeepsPlaced(f: Fed, command: Command)
    requires NoOrphans(f) && SecretCommand(command) && Commanded(f, command).Ok?
    ensures NoOrphans(Commanded(f, command).value) && Commanded(f, command).value.settings == f.settings
    ensures command.Rename? ==> NoOrphans(HalfRenamed(f, command.address, command.newName, command.version))
  {
    CarriedHeld(f, command);
    var a := command.address;
    var b := Resolve(f, a, Needs(command)).value.0;
    assert Accountable(f.backends[b]) && AllHome(f.settings, b, f.backends[b]);
    assert CanWrite in Needs(command) || CanDelete in Needs(command);
    assert Home(f.settings, b, a);
    var held := f.backends[b].held;
    hide Resolve, Mounted, NoOrphans, Accountable;
    forall x | x in HeldAfter(held, command)
      ensures Home(f.settings, b, x)
    {
      assert x in held ==> Home(f.settings, b, x);
    }
    HeldKeepsPlaced(f, b, HeldAfter(held, command));
    if command.Rename? {
      var copied := Copied(held, a, Address(a.scope, command.newName), command.version);
      forall x | x in copied
        ensures Home(f.settings, b, x)
      {
        assert x in held ==> Home(f.settings, b, x);
      }
      HeldKeepsPlaced(f, b, copied);
    }
  }

  /** Nothing the command's namespace holds lies anywhere. */
  predicate NoneHeld(f: Fed, key: NamespaceKey) {
    forall b, a | b in f.backends && a in f.backends[b].held :: KeyOf(a.scope) != key
  }

  lemma NoneHeldIf(f: Fed, key: NamespaceKey)
    requires NoOrphans(f) && (key in f.settings.namespaces ==> !HoldsSecrets(f, key))
    ensures NoneHeld(f, key)
  {
    forall b, a | b in f.backends && a in f.backends[b].held
      ensures KeyOf(a.scope) != key
    {
      assert Accountable(f.backends[b]) && AllHome(f.settings, b, f.backends[b]);
      assert Home(f.settings, b, a);
      if KeyOf(a.scope) == key {
        assert a.scope == Scope(key.tenant, key.namespace, DEFAULT);
        assert ListsAny(f.backends[b], Scope(key.tenant, key.namespace, DEFAULT));
      }
    }
  }

  /** A namespace that holds nothing may be added, dropped or pointed elsewhere: every other secret
      keeps its home. */
  lemma ElsewhereKeepsPlaced(f: Fed, key: NamespaceKey, namespaces: map<NamespaceKey, Mount>)
    requires NoOrphans(f) && NoneHeld(f, key)
    requires forall k | k in f.settings.namespaces && k != key :: k in namespaces && namespaces[k] == f.settings.namespaces[k]
    requires key in namespaces || !HasBindings(f.settings, key)
    ensures NoOrphans(f.(settings := f.settings.(namespaces := namespaces)))
  {
    var s := f.settings.(namespaces := namespaces);
    forall b | b in f.backends
      ensures Accountable(f.backends[b]) && AllHome(s, b, f.backends[b])
    {
      assert Accountable(f.backends[b]) && AllHome(f.settings, b, f.backends[b]);
      forall a | a in f.backends[b].held
        ensures Home(s, b, a)
      {
        assert Home(f.settings, b, a) && KeyOf(a.scope) != key;
      }
    }
    forall a | a in s.bindings
      ensures KeyOf(a.scope) in s.namespaces
    {
      assert KeyOf(a.scope) in f.settings.namespaces;
    }
  }

  lemma ManageKeepsPlaced(f: Fed, command: Command)
    requires NoOrphans(f) && (command.Add? || command.Remove? || command.Remount?) && Commanded(f, command).Ok?
    ensures NoOrphans(Commanded(f, command).value) && NoneHeld(f, command.key)
    ensures Commanded(f, command).value.backends == f.backends
  {
    hide NoOrphans, HasBindings, HoldsSecrets, NoneHeld;
    NoneHeldIf(f, command.key);
    ElsewhereKeepsPlaced(f, command.key, Commanded(f, command).value.settings.namespaces);
  }

  lemma BindKeepsPlaced(f: Fed, command: Command)
    requires NoOrphans(f) && (command.Bind? || command.Unbind?) && Commanded(f, command).Ok?
    ensures NoOrphans(Commanded(f, command).value)
  {
    var after := Commanded(f, command).value;
    forall b | b in after.backends
      ensures Accountable(after.backends[b]) && AllHome(after.settings, b, after.backends[b])
    {
      assert Accountable(f.backends[b]) && AllHome(f.settings, b, f.backends[b]);
    }
  }

  /** Every command keeps every held secret in the one backend its existing namespace is mounted on,
      and every binding in an existing namespace. */
  lemma CommandKeepsNoOrphans(f: Fed, command: Command, luck: Luck)
    requires NoOrphans(f)
    ensures NoOrphans(Obeyed(f, command, luck).0)
  {
    hide NoOrphans, Carried, HalfRenamed;
    if Commanded(f, command).Ok? {
      match command {
        case Add(_, _) => ManageKeepsPlaced(f, command);
        case Remove(_) => ManageKeepsPlaced(f, command);
        case Remount(_, _) => ManageKeepsPlaced(f, command);
        case Bind(_, _) => BindKeepsPlaced(f, command);
        case Unbind(_) => BindKeepsPlaced(f, command);
        case _ => PortKeepsPlaced(f, command);
      }
    }
  }

  function Run(f: Fed, commands: seq<(Command, Luck)>, n: nat): Fed
    requires n <= |commands|
  {
    if n == 0 then f else Obeyed(Run(f, commands, n - 1), commands[n - 1].0, commands[n - 1].1).0
  }

  lemma {:induction false} RunKeepsNoOrphans(f: Fed, commands: seq<(Command, Luck)>, n: nat)
    requires n <= |commands| && NoOrphans(f)
    ensures NoOrphans(Run(f, commands, n))
  {
    hide NoOrphans, Obeyed;
    if n > 0 {
      RunKeepsNoOrphans(f, commands, n - 1);
      CommandKeepsNoOrphans(Run(f, commands, n - 1), commands[n - 1].0, commands[n - 1].1);
    }
  }

  /** Local mode starts sound: one namespace, no bindings, backends that hold nothing. */
  lemma LocalStartIsSound(backends: map<BackendRef, Backend>)
    requires forall b | b in backends :: Accountable(backends[b]) && backends[b].held == map[]
    ensures NoOrphans(Fed(Settings(map[LOCAL_NAMESPACE := None], map[]), backends))
  {
  }

  // ---- Management changes nothing a reader sees ----

  function Readable(f: Fed, a: Address): Option<Revealed> {
    match ReadPort(f, a)
    case Ok(revealed) => Some(revealed)
    case Err(_) => None
  }

  ghost predicate SameReadable(f: Fed, g: Fed) {
    forall a: Address :: Readable(f, a) == Readable(g, a)
  }

  /** Reads in other namespaces do not look at this one's mount. */
  lemma OtherNamespacesRead(f: Fed, after: Fed, key: NamespaceKey, a: Address)
    requires after.backends == f.backends && after.settings.bindings == f.settings.bindings && KeyOf(a.scope) != key
    requires forall k | k != key :: (k in f.settings.namespaces <==> k in after.settings.namespaces)
    requires forall k | k != key && k in f.settings.namespaces :: after.settings.namespaces[k] == f.settings.namespaces[k]
    ensures Readable(after, a) == Readable(f, a)
  {
  }

  /** With nothing held in its namespace, an address reads only what its binding reaches. */
  function LocatorRead(f: Fed, b: BackendRef, locator: Locator): Option<Revealed> {
    if b in f.backends && CanRead in f.backends[b].offers && f.backends[b].requiresBinding && locator in f.backends[b].external
    then Some(f.backends[b].external[locator])
    else None
  }

  lemma NothingHeldRead(f: Fed, a: Address)
    requires NoneHeld(f, KeyOf(a.scope)) && Decide(TenantAndUser(a.scope.tenant, a.scope.user)).Ok?
    ensures Readable(f, a) ==
      if KeyOf(a.scope) in f.settings.namespaces && a in f.settings.bindings
      then LocatorRead(f, EffectiveMount(f.settings.namespaces[KeyOf(a.scope)]), f.settings.bindings[a])
      else None
  {
  }

  /** Adding or removing a namespace changes no address's value: none is lost and none comes back. */
  lemma AddRemoveKeepReadable(f: Fed, command: Command, luck: Luck)
    requires NoOrphans(f) && (command.Add? || command.Remove?)
    ensures SameReadable(f, Obeyed(f, command, luck).0)
  {
    var after := Obeyed(f, command, luck).0;
    if after != f {
      var key := command.key;
      ManageKeepsPlaced(f, command);
      assert NoneHeld(after, key);
      forall a: Address
        ensures Readable(f, a) == Readable(after, a)
      {
        if KeyOf(a.scope) != key {
          OtherNamespacesRead(f, after, key, a);
        } else if Decide(TenantAndUser(a.scope.tenant, a.scope.user)).Ok? {
          NothingHeldRead(f, a);
          NothingHeldRead(after, a);
          assert command.Add? && a in f.settings.bindings ==> KeyOf(a.scope) in f.settings.namespaces;
          assert command.Remove? ==> !HasBindings(f.settings, key);
        }
      }
    }
  }

  /** The old mount and the new one read the same behind every bound locator of the namespace. */
  predicate BoundAlike(f: Fed, key: NamespaceKey, to: BackendRef)
    requires key in f.settings.namespaces
  {
    forall a | a in f.settings.bindings && a.scope == Scope(key.tenant, key.namespace, DEFAULT) ::
      LocatorRead(f, EffectiveMount(f.settings.namespaces[key]), f.settings.bindings[a]) == LocatorRead(f, to, f.settings.bindings[a])
  }

  lemma RemountedRead(f: Fed, key: NamespaceKey, to: BackendRef, a: Address)
    requires NoOrphans(f) && Commanded(f, Remount(key, to)).Ok?
    requires KeyOf(a.scope) == key && Decide(TenantAndUser(a.scope.tenant, a.scope.user)).Ok?
    ensures var after := Commanded(f, Remount(key, to)).value;
            && Readable(f, a) == (if a in f.settings.bindings
                                  then LocatorRead(f, EffectiveMount(f.settings.namespaces[key]), f.settings.bindings[a])
                                  else None)
            && Readable(after, a) == (if a in f.settings.bindings then LocatorRead(f, to, f.settings.bindings[a]) else None)
  {
    var after := Commanded(f, Remount(key, to)).value;
    ManageKeepsPlaced(f, Remount(key, to));
    assert NoneHeld(after, key);
    NothingHeldRead(f, a);
    NothingHeldRead(after, a);
  }

  /** Pointing a namespace elsewhere keeps every held secret readable; what it can change is what
      bindings reach, and it changes nothing exactly when both mounts read alike behind each of the
      namespace's bindings. */
  lemma RemountReadableIff(f: Fed, key: NamespaceKey, to: BackendRef)
    requires NoOrphans(f) && Commanded(f, Remount(key, to)).Ok?
    ensures SameReadable(f, Commanded(f, Remount(key, to)).value) <==> BoundAlike(f, key, to)
    ensures forall b, a | b in f.backends && a in f.backends[b].held ::
      Readable(Commanded(f, Remount(key, to)).value, a) == Readable(f, a)
  {
    var after := Commanded(f, Remount(key, to)).value;
    ManageKeepsPlaced(f, Remount(key, to));
    assert key.tenant == DEFAULT;
    forall a: Address | KeyOf(a.scope) != key
      ensures Readable(after, a) == Readable(f, a)
    {
      hide NoOrphans;
      OtherNamespacesRead(f, after, key, a);
    }
    hide NoOrphans, Commanded, Readable, LocatorRead;
    forall a: Address | KeyOf(a.scope) == key
      ensures a.scope.user != DEFAULT ==> Readable(f, a) == Readable(after, a)
      ensures a.scope.user == DEFAULT && a !in f.settings.bindings ==> Readable(f, a) == Readable(after, a)
      ensures a.scope.user == DEFAULT && a in f.settings.bindings ==>
        (Readable(f, a) == Readable(after, a) <==>
           LocatorRead(f, EffectiveMount(f.settings.namespaces[key]), f.settings.bindings[a]) == LocatorRead(f, to, f.settings.bindings[a]))
    {
      if a.scope.user == DEFAULT {
        RemountedRead(f, key, to, a);
      } else {
        OthersReadNothing(f, a);
        OthersReadNothing(after, a);
      }
    }
    if SameReadable(f, after) {
      forall a | a in f.settings.bindings && a.scope == Scope(key.tenant, key.namespace, DEFAULT)
        ensures LocatorRead(f, EffectiveMount(f.settings.namespaces[key]), f.settings.bindings[a]) == LocatorRead(f, to, f.settings.bindings[a])
      {
        assert Readable(f, a) == Readable(after, a);
      }
    }
  }

  lemma OthersReadNothing(f: Fed, a: Address)
    requires a.scope.user != DEFAULT
    ensures Readable(f, a) == None
  {
  }

  /** So with no bindings in the namespace, or no mount of the two that reads through them, the map is
      the same. */
  lemma UnboundRemountKeepsReadable(f: Fed, key: NamespaceKey, to: BackendRef)
    requires NoOrphans(f) && Commanded(f, Remount(key, to)).Ok?
    requires !HasBindings(f.settings, key) || (!f.backends[to].requiresBinding &&
             (EffectiveMount(f.settings.namespaces[key]) in f.backends ==> !f.backends[EffectiveMount(f.settings.namespaces[key])].requiresBinding))
    ensures SameReadable(f, Commanded(f, Remount(key, to)).value)
  {
    RemountReadableIff(f, key, to);
    hide Commanded, NoOrphans, SameReadable;
    assert BoundAlike(f, key, to);
  }

  // ---- Each hypothesis is needed ----

  const VAULT: BackendRef := BackendRef(Onepassword, DEFAULT)

  /** A bound name in the local namespace, whose own mount holds nothing, beside a read-only backend
      that has an item behind the locator. */
  function BoundExample(a: Address): Fed {
    Fed(Settings(map[LOCAL_NAMESPACE := None], map[a := "op://vault/item"]),
        map[DEFAULT_MOUNT := Backend(ALL_CAPABILITIES, false, map[], map[]),
            VAULT := Backend({CanRead}, true, map[], map["op://vault/item" := Revealed("value", None)])])
  }

  /** A remount that is accepted and changes what is readable: the binding starts to reach an item. */
  lemma RemountCanReveal(a: Address)
    requires a.scope == LOCAL
    ensures NoOrphans(BoundExample(a)) && Commanded(BoundExample(a), Remount(LOCAL_NAMESPACE, VAULT)).Ok?
    ensures Readable(BoundExample(a), a) == None
    ensures Readable(Commanded(BoundExample(a), Remount(LOCAL_NAMESPACE, VAULT)).value, a) == Some(Revealed("value", None))
  {
    var f := BoundExample(a);
    assert KeyOf(a.scope) == LOCAL_NAMESPACE && DEFAULT_MOUNT != VAULT;
    assert !HoldsSecrets(f, LOCAL_NAMESPACE);
  }

  /** Some backend holds the secret and its namespace is gone. */
  predicate Orphaned(f: Fed, a: Address) {
    KeyOf(a.scope) !in f.settings.namespaces && exists b :: b in f.backends && a in f.backends[b].held
  }

  /** Without the authorizer in front, a secret written for another user is not seen by the check that
      guards a removal: its namespace goes and it stays. */
  lemma WithoutAuthorizerOrphaned(f: Fed, a: Address, value: SecretValue, version: Version)
    requires NoOrphans(f) && WriteIn(f, a, value, version).Ok? && a.scope.user != DEFAULT && a.scope.namespace != DEFAULT
    requires RemoveFrom(f, KeyOf(a.scope)).Ok?
    ensures var after := RemoveFrom(WriteIn(f, a, value, version).value, KeyOf(a.scope));
            after.Ok? && Orphaned(after.value, a)
    ensures Commanded(f, Write(a, value, version)) == Err(Denied)
  {
    var key := KeyOf(a.scope);
    var b := Resolve(f, a, {CanWrite}).value.0;
    var written := WriteIn(f, a, value, version).value;
    var scope := Scope(key.tenant, key.namespace, DEFAULT);
    assert b == EffectiveMount(f.settings.namespaces[key]);
    NoneHeldIf(f, key);
    assert forall x | x in f.backends[b].held :: KeyOf(x.scope) != key;
    assert forall x | x in written.backends[b].held :: x.scope != scope;
    assert !HasBindings(written.settings, key);
    var after := RemoveFrom(written, key).value;
    assert b in after.backends && a in after.backends[b].held;
  }

  /** Nor is one in a backend that can be written and not listed, authorizer or not. */
  lemma WithoutListingOrphaned(f: Fed, a: Address, value: SecretValue, version: Version)
    requires Commanded(f, Write(a, value, version)).Ok? && a.scope.namespace != DEFAULT && !HasBindings(f.settings, KeyOf(a.scope))
    requires var b := EffectiveMount(f.settings.namespaces[KeyOf(a.scope)]); b in f.backends && CanList !in f.backends[b].offers
    ensures var after := Commanded(Commanded(f, Write(a, value, version)).value, Remove(KeyOf(a.scope)));
            after.Ok? && Orphaned(after.value, a)
  {
    var key := KeyOf(a.scope);
    var b := EffectiveMount(f.settings.namespaces[key]);
    var written := Commanded(f, Write(a, value, version)).value;
    assert !HasBindings(written.settings, key);
    var after := Commanded(written, Remove(key)).value;
    assert b in after.backends && a in after.backends[b].held;
  }

  // ---- Secret commands through the port are the map's ----

  function ReadableAfter(f: Fed, command: Command, x: Address): Option<Revealed>
    requires SecretCommand(command)
  {
    var a := command.address;
    match command
    case Write(_, value, version) => if x == a then Some(Revealed(value, Some(version))) else Readable(f, x)
    case Delete(_) => if x == a then None else Readable(f, x)
    case Rename(_, newName, version) =>
      if x == Address(a.scope, newName) && Readable(f, a).Some? then Some(Revealed(Readable(f, a).value.value, Some(version)))
      else if x == a then None
      else Readable(f, x)
  }

  /** A read in another scope does not see what one backend holds in this one. */
  lemma HeldElsewhereRead(f: Fed, b: BackendRef, held: Vault, x: Address)
    requires b in f.backends && (x in held <==> x in f.backends[b].held) && (x in held ==> held[x] == f.backends[b].held[x])
    ensures Readable(WithHeld(f, b, held), x) == Readable(f, x)
  {
  }

  /** A read of an address whose namespace is mounted on a backend that reads by address. */
  lemma HeldHereRead(f: Fed, b: BackendRef, x: Address)
    requires Mounted(f, x.scope) == Ok(b) && CanRead in f.backends[b].offers && !f.backends[b].requiresBinding
    requires Decide(TenantAndUser(x.scope.tenant, x.scope.user)).Ok?
    ensures Readable(f, x) ==
      if x in f.backends[b].held then Some(Revealed(f.backends[b].held[x].value, Some(f.backends[b].held[x].version))) else None
  {
  }

  /** Where the backend reads by address, a write, delete or rename that succeeds changes what is
      readable exactly at its own addresses; and no such command moves a binding or a mount. */
  lemma PortIsTheMap(f: Fed, command: Command, x: Address)
    requires SecretCommand(command) && Commanded(f, command).Ok?
    requires var b := Mounted(f, command.address.scope).value; CanRead in f.backends[b].offers && !f.backends[b].requiresBinding
    ensures Commanded(f, command).value.settings == f.settings
    ensures Readable(Commanded(f, command).value, x) == ReadableAfter(f, command, x)
  {
    CarriedHeld(f, command);
    var a := command.address;
    var b := Mounted(f, a.scope).value;
    var after := HeldAfter(f.backends[b].held, command);
    if x.scope == a.scope {
      assert Mounted(WithHeld(f, b, after), x.scope) == Ok(b);
      hide Carried, Readable, Mounted, Resolve;
      HeldHereRead(f, b, x);
      HeldHereRead(f, b, a);
      HeldHereRead(WithHeld(f, b, after), b, x);
    } else {
      hide Carried, Readable, Mounted, Resolve;
      HeldElsewhereRead(f, b, after, x);
    }
  }

  // ---- Which answer each command gets ----

  /** The backend is registered and the scope's namespace, which exists, is mounted on it: by name, or
      on the default keychain. */
  predicate On(f: Fed, key: NamespaceKey, b: BackendRef) {
    && key in f.settings.namespaces && b in f.backends
    && b == match f.settings.namespaces[key]
            case Some(mount) => mount
            case None => BackendRef(Keychain, "default")
  }

  predicate Local(resource: Resource) {
    resource.tenant == "default" && (resource.TenantAndUser? ==> resource.user == "default")
  }

  /** Where the mount reads by address, what it holds is what is readable. */
  lemma HeldIsReadable(f: Fed, b: BackendRef, a: Address)
    requires On(f, KeyOf(a.scope), b) && CanRead in f.backends[b].offers && !f.backends[b].requiresBinding
    requires Local(TenantAndUser(a.scope.tenant, a.scope.user))
    ensures Readable(f, a).Some? <==> a in f.backends[b].held
  {
    HeldHereRead(f, b, a);
    hide Readable;
  }

  /** Which answer a write, delete or rename gets: for a scope that is not the local one, for a
      namespace that has no registered mount, for a capability the mount lacks, for a missing binding
      where it needs one; then a write is made, a delete finds its secret or not, and a rename is in
      conflict with a binding of either name or a secret under the new one. */
  lemma SecretAnswers(f: Fed, command: Command, b: BackendRef)
    requires SecretCommand(command)
    ensures var a, answer := command.address, Obeyed(f, command, Works).1;
            && (answer.Err? ==> Obeyed(f, command, Works).0 == f)
            && if !Local(TenantAndUser(a.scope.tenant, a.scope.user)) then answer == Err(Denied)
               else if !On(f, KeyOf(a.scope), b) then (forall other :: !On(f, KeyOf(a.scope), other)) ==> answer == Err(NotFound)
               else if !(Needs(command) <= f.backends[b].offers) then answer == Err(Unsupported)
               else if f.backends[b].requiresBinding && a !in f.settings.bindings then answer == Err(NotFound)
               else CarriedAnswer(f, command, b, answer)
  {
    hide HalfRenamed;
    if !On(f, KeyOf(command.address.scope), b) && Mounted(f, command.address.scope).Ok? {
      assert On(f, KeyOf(command.address.scope), Mounted(f, command.address.scope).value);
    }
  }

  predicate CarriedAnswer(f: Fed, command: Command, b: BackendRef, answer: Result<(), StorageError>)
    requires SecretCommand(command) && b in f.backends
  {
    var a, held := command.address, f.backends[b].held;
    match command
    case Write(_, _, _) => answer == Ok(())
    case Delete(_) => answer == if a in held then Ok(()) else Err(NotFound)
    case Rename(_, newName, _) =>
      var to := Address(a.scope, newName);
      && (answer == Err(Conflict) <==> a in f.settings.bindings || to in f.settings.bindings || (a in held && to in held))
      && (answer == Err(NotFound) <==> a !in f.settings.bindings && to !in f.settings.bindings && a !in held)
      && (answer.Ok? || answer == Err(Conflict) || answer == Err(NotFound))
  }

  /** Which answer a read gets, value and version included. */
  lemma ReadAnswers(f: Fed, a: Address, b: BackendRef)
    ensures var answer := ReadPort(f, a);
            if !Local(TenantAndUser(a.scope.tenant, a.scope.user)) then answer == Err(Denied)
            else if !On(f, KeyOf(a.scope), b) then (forall other :: !On(f, KeyOf(a.scope), other)) ==> answer == Err(NotFound)
            else if CanRead !in f.backends[b].offers then answer == Err(Unsupported)
            else if !f.backends[b].requiresBinding then
              answer == if a in f.backends[b].held
                        then Ok(Revealed(f.backends[b].held[a].value, Some(f.backends[b].held[a].version))) else Err(NotFound)
            else
              answer == if a in f.settings.bindings && f.settings.bindings[a] in f.backends[b].external
                        then Ok(f.backends[b].external[f.settings.bindings[a]]) else Err(NotFound)
  {
    if !On(f, KeyOf(a.scope), b) && Mounted(f, a.scope).Ok? {
      assert On(f, KeyOf(a.scope), Mounted(f, a.scope).value);
    }
  }

  /** Some secret of the local user's in the namespace lies in the mount, which can list it. */
  predicate Occupied(f: Fed, key: NamespaceKey) {
    exists b, a :: b in f.backends && On(f, key, b) && a in f.backends[b].held && CanList in f.backends[b].offers
                   && a.scope.tenant == key.tenant && a.scope.namespace == key.namespace && a.scope.user == "default"
  }

  predicate BoundIn(f: Fed, key: NamespaceKey) {
    exists a :: a in f.settings.bindings && a.scope.tenant == key.tenant && a.scope.namespace == key.namespace
  }

  lemma OccupiedIff(f: Fed, key: NamespaceKey)
    requires key in f.settings.namespaces
    ensures Occupied(f, key) <==> HoldsSecrets(f, key)
  {
    var b := EffectiveMount(f.settings.namespaces[key]);
    if HoldsSecrets(f, key) {
      var a :| a in f.backends[b].held && a.scope == Scope(key.tenant, key.namespace, DEFAULT);
      assert On(f, key, b);
    }
    if Occupied(f, key) {
      var b', a :| On(f, key, b') && a in f.backends[b'].held && CanList in f.backends[b'].offers
                   && a.scope.tenant == key.tenant && a.scope.namespace == key.namespace && a.scope.user == "default";
      assert a.scope == Scope(key.tenant, key.namespace, DEFAULT);
    }
  }

  lemma BoundInIff(f: Fed, key: NamespaceKey)
    ensures BoundIn(f, key) <==> HasBindings(f.settings, key)
  {
    if BoundIn(f, key) {
      var a :| a in f.settings.bindings && a.scope.tenant == key.tenant && a.scope.namespace == key.namespace;
      assert KeyOf(a.scope) == key;
    }
  }

  /** The records after a command on them that is answered Ok. */
  function Managed(s: Settings, command: Command): Settings
    requires !SecretCommand(command)
  {
    match command
    case Add(key, mount) => Settings(s.namespaces[key := mount], s.bindings)
    case Remove(key) => Settings(s.namespaces - {key}, s.bindings)
    case Remount(key, to) => Settings(s.namespaces[key := Some(to)], s.bindings)
    case Bind(a, locator) => Settings(s.namespaces, s.bindings[a := locator])
    case Unbind(a) => Settings(s.namespaces, s.bindings - {a})
  }

  /** When a command on the records is in conflict. */
  predicate InConflict(f: Fed, command: Command)
    requires !SecretCommand(command)
  {
    match command
    case Add(key, _) => key in f.settings.namespaces
    case Remove(key) => key.namespace == "default" || (key in f.settings.namespaces && (BoundIn(f, key) || Occupied(f, key)))
    case Remount(key, to) => key in f.settings.namespaces && to in f.backends && Occupied(f, key)
    case Bind(a, _) => KeyOf(a.scope) in f.settings.namespaces && a in f.settings.bindings
    case Unbind(_) => false
  }

  /** When what it names is not there. */
  predicate Missing(f: Fed, command: Command)
    requires !SecretCommand(command)
  {
    match command
    case Add(key, mount) =>
      key !in f.settings.namespaces && (match mount case Some(b) => b case None => BackendRef(Keychain, "default")) !in f.backends
    case Remove(key) => key.namespace != "default" && key !in f.settings.namespaces
    case Remount(key, to) => key !in f.settings.namespaces || to !in f.backends
    case Bind(a, _) => KeyOf(a.scope) !in f.settings.namespaces
    case Unbind(a) => a !in f.settings.bindings
  }

  /** A command on the records is denied, in conflict, misses what it names, or is made: exactly one. */
  lemma ManageAnswers(f: Fed, command: Command)
    requires !SecretCommand(command)
    ensures var (after, answer) := Obeyed(f, command, Works);
            && (answer == Err(Denied) <==> !Local(ResourceOf(command)))
            && (answer == Err(Conflict) <==> Local(ResourceOf(command)) && InConflict(f, command))
            && (answer == Err(NotFound) <==> Local(ResourceOf(command)) && Missing(f, command))
            && (answer.Ok? <==> Local(ResourceOf(command)) && !InConflict(f, command) && !Missing(f, command))
            && after == if answer.Ok? then Fed(Managed(f.settings, command), f.backends) else f
  {
    if command.Remove? || command.Remount? {
      BoundInIff(f, command.key);
      if command.key in f.settings.namespaces {
        OccupiedIff(f, command.key);
      }
    }
    hide HoldsSecrets, HasBindings, Occupied, BoundIn, HalfRenamed;
  }

  /** What bad luck does: a command that fails has no effect, one that goes unanswered has its own, and
      each answers the fault; but the default namespace is refused its removal before anything can fail. */
  lemma LuckMeans(f: Fed, command: Command, error: StorageError)
    requires Local(ResourceOf(command))
    ensures if command.Remove? && command.key.namespace == "default" then forall luck :: Obeyed(f, command, luck) == (f, Err(Conflict))
            else
              && Obeyed(f, command, Fails(error)) == (f, Err(error))
              && Obeyed(f, command, Unheard(error)) == (Obeyed(f, command, Works).0, Err(error))
              && (!command.Rename? || Obeyed(f, command, Works).1.Err? ==> Obeyed(f, command, HalfDone(error)) == (f, Err(error)))
  {
    hide HalfRenamed, AddTo, RemoveFrom, RemountIn, BindIn, UnbindIn, WriteIn, DeleteIn, RenameIn;
  }

  /** A rename left half done has its value under both names, and every other address as it was. */
  lemma HalfDoneKeepsBoth(f: Fed, command: Command, error: StorageError, x: Address)
    requires command.Rename? && Commanded(f, command).Ok?
    requires var b := Mounted(f, command.address.scope).value; CanRead in f.backends[b].offers && !f.backends[b].requiresBinding
    ensures var (after, answer) := Obeyed(f, command, HalfDone(error));
            var to := Address(command.address.scope, command.newName);
            && answer == Err(error) && after.settings == f.settings && Readable(f, command.address).Some?
            && Readable(after, x) == if x == to then Some(Revealed(Readable(f, command.address).value.value, Some(command.version)))
                                     else Readable(f, x)
  {
    CarriedHeld(f, command);
    var a, to := command.address, Address(command.address.scope, command.newName);
    var b := Mounted(f, a.scope).value;
    var held := f.backends[b].held;
    var after := WithHeld(f, b, Copied(held, a, to, command.version));
    assert Obeyed(f, command, HalfDone(error)).0 == after;
    HeldHereRead(f, b, a);
    if x.scope == a.scope {
      assert Mounted(after, x.scope) == Ok(b);
      hide Carried, Readable, Mounted, Resolve, Obeyed;
      HeldHereRead(f, b, x);
      HeldHereRead(after, b, x);
    } else {
      hide Carried, Readable, Mounted, Resolve, Obeyed;
      HeldElsewhereRead(f, b, Copied(held, a, to, command.version), x);
    }
  }

  /** A denied scope is answered alike whatever is stored and whatever fails, and reaches nothing. */
  lemma DeniedChangesNothing(f: Fed, command: Command, luck: Luck, a: Address)
    requires Decide(ResourceOf(command)).Err?
    ensures Obeyed(f, command, luck) == (f, Err(Denied))
    ensures !command.Add? && !command.Remove? && !command.Remount? && a.scope == command.address.scope ==> ReadPort(f, a) == Err(Denied)
  {
  }

  // ---- The class ----

  /** The answer without what it carries. */
  function Bare<T>(r: Result<T, StorageError>): Result<(), StorageError> {
    match r
    case Ok(_) => Ok(())
    case Err(error) => Err(error)
  }

  /** The luck a command can have: with no backend fault it works, and a configuration store that
      cannot be reached fails it. */
  predicate Deserved(unavailable: bool, faulted: bool, luck: Luck) {
    if unavailable then luck == Fails(Unavailable) else !faulted ==> luck == Works
  }

  /** Routing over an in-memory configuration store and its registered backends, any of whose answers
      may be a fault; `faults` counts them. */
  class FederatedStorage {
    const config: InMemoryConfig
    var backends: map<BackendRef, Backend>
    var faults: nat

    constructor (config: InMemoryConfig)
      ensures this.config == config && backends == map[]
    {
      this.config := config;
      backends, faults := map[], 0;
    }

    function State(): Fed
      reads this, config
    {
      Fed(config.State(), backends)
    }

    method WithBackend(b: BackendRef, storage: Backend) returns (r: Result<(), StorageError>)
      modifies this`backends
      ensures if b in old(backends) then r == Err(Conflict) && backends == old(backends) else r == Ok(()) && backends == old(backends)[b := storage]
    {
      if b in backends {
        return Err(Conflict);
      }
      backends := backends[b := storage];
      return Ok(());
    }

    method AddNamespace(key: NamespaceKey, mount: Mount) returns (r: Result<(), StorageError>)
      modifies config
      ensures (State(), r) == Met(old(State()), Add(key, mount), if old(config.unavailable) then Fails(Unavailable) else Works)
      ensures config.unavailable == old(config.unavailable)
    {
      var existing := config.Namespace(key);
      if existing.Err? {
        return Err(existing.error);
      }
      if existing.value.Some? {
        return Err(Conflict);
      }
      if EffectiveMount(mount) !in backends {
        return Err(NotFound);
      }
      r := config.AddNamespace(key, mount);
    }

    /** A listing that fails is an error, never an empty one. */
    method HoldsAny(key: NamespaceKey, mount: Mount) returns (r: Result<bool, StorageError>)
      modifies this`faults
      ensures faults == old(faults) ==>
        var b := EffectiveMount(mount);
        r == Ok(b in backends && CanList in backends[b].offers && ListsAny(backends[b], Scope(key.tenant, key.namespace, DEFAULT)))
      ensures faults != old(faults) ==> r.Err?
    {
      var b := EffectiveMount(mount);
      if b !in backends || CanList !in backends[b].offers {
        return Ok(false);
      }
      if * {
        faults := faults + 1;
        var error: StorageError := *;
        return Err(error);
      }
      var scope := Scope(key.tenant, key.namespace, DEFAULT);
      var rows := set a | a in backends[b].held && a.scope == scope;
      assert ListsAny(backends[b], scope) ==> rows != {} by {
        if ListsAny(backends[b], scope) {
          var a :| a in backends[b].held && a.scope == scope;
          assert a in rows;
        }
      }
      return Ok(rows != {});
    }

    method RemoveNamespace(key: NamespaceKey) returns (r: Result<(), StorageError>, ghost luck: Luck)
      modifies config, this`faults
      ensures (State(), r) == Met(old(State()), Remove(key), luck)
      ensures Deserved(old(config.unavailable), faults != old(faults), luck)
    {
      luck := if config.unavailable then Fails(Unavailable) else Works;
      if key.namespace == DEFAULT {
        return Err(Conflict), luck;
      }
      var found := config.Namespace(key);
      if found.Err? {
        return Err(found.error), luck;
      }
      if found.value.None? {
        return Err(NotFound), luck;
      }
      var bound := config.NamespaceBound(key);
      if bound.Err? {
        return Err(Unavailable), luck;
      }
      if bound.value {
        return Err(Conflict), luck;
      }
      var holds := HoldsAny(key, found.value.value);
      if holds.Err? {
        return Err(holds.error), Fails(holds.error);
      }
      if holds.value {
        return Err(Conflict), luck;
      }
      r := config.DropNamespace(key);
    }

    method SetMount(key: NamespaceKey, to: BackendRef) returns (r: Result<(), StorageError>, ghost luck: Luck)
      modifies config, this`faults
      ensures (State(), r) == Met(old(State()), Remount(key, to), luck)
      ensures Deserved(old(config.unavailable), faults != old(faults), luck)
    {
      luck := if config.unavailable then Fails(Unavailable) else Works;
      var found := config.Namespace(key);
      if found.Err? {
        return Err(found.error), luck;
      }
      if found.value.None? {
        return Err(NotFound), luck;
      }
      if to !in backends {
        return Err(NotFound), luck;
      }
      var holds := HoldsAny(key, found.value.value);
      if holds.Err? {
        return Err(holds.error), Fails(holds.error);
      }
      if holds.value {
        return Err(Conflict), luck;
      }
      r := config.Remount(key, to);
    }

    /** The backend a command is for, and the target it is asked about. */
    method ResolveTarget(a: Address, needs: set<Capability>) returns (r: Result<(BackendRef, Target), StorageError>)
      ensures r == if config.unavailable then Err(Unavailable) else Resolve(State(), a, needs)
    {
      var found := config.Namespace(KeyOf(a.scope));
      if found.Err? {
        return Err(found.error);
      }
      if found.value.None? {
        return Err(NotFound);
      }
      var b := EffectiveMount(found.value.value);
      if b !in backends {
        return Err(NotFound);
      }
      if !(needs <= backends[b].offers) {
        return Err(Unsupported);
      }
      if !backends[b].requiresBinding {
        return Ok((b, Target(a, None)));
      }
      var bound := config.Binding(a);
      if bound.Err? {
        return Err(Unavailable);
      }
      if bound.value.None? {
        return Err(NotFound);
      }
      return Ok((b, Target(a, bound.value)));
    }

    method Bind(a: Address, locator: Locator) returns (r: Result<(), StorageError>)
      modifies config
      ensures (State(), r) == Met(old(State()), Command.Bind(a, locator), if old(config.unavailable) then Fails(Unavailable) else Works)
    {
      var found := config.Namespace(KeyOf(a.scope));
      if found.Err? {
        return Err(found.error);
      }
      if found.value.None? {
        return Err(NotFound);
      }
      r := config.Bind(a, locator);
    }

    method Unbind(a: Address) returns (r: Result<(), StorageError>)
      modifies config
      ensures (State(), r) == Met(old(State()), Command.Unbind(a), if old(config.unavailable) then Fails(Unavailable) else Works)
    {
      r := config.Unbind(a);
    }

    method Read(a: Address) returns (r: Result<Revealed, StorageError>)
      modifies this`faults
      ensures faults == old(faults) ==> r == if config.unavailable then Err(Unavailable) else RoutedRead(State(), a)
      ensures faults != old(faults) ==> r.Err? && !config.unavailable && Resolve(State(), a, {CanRead}).Ok?
    {
      var resolved := ResolveTarget(a, {CanRead});
      if resolved.Err? {
        return Err(resolved.error);
      }
      if * {
        faults := faults + 1;
        var error: StorageError := *;
        return Err(error);
      }
      return BackendRead(backends[resolved.value.0], resolved.value.1);
    }

    /** An answered write says whether the address held anything, and the version it holds now. */
    method Write(a: Address, value: SecretValue, version: Version) returns (r: Result<Written, StorageError>, ghost luck: Luck)
      modifies this`backends, this`faults
      ensures (State(), Bare(r)) == Met(old(State()), Command.Write(a, value, version), luck)
      ensures Deserved(config.unavailable, faults != old(faults), luck)
      ensures r.Ok? ==>
        var b := Mounted(old(State()), a.scope);
        b.Ok? && b.value in old(backends) && r.value == WrittenAt(old(backends)[b.value].held, a, version)
    {
      luck := if config.unavailable then Fails(Unavailable) else Works;
      var resolved := ResolveTarget(a, {CanWrite});
      if resolved.Err? {
        return Err(resolved.error), luck;
      }
      var b := resolved.value.0;
      var held := backends[b].held;
      var error: StorageError := *;
      if * {
        faults := faults + 1;
        return Err(error), Fails(error);
      }
      backends := backends[b := backends[b].(held := held[a := Stored(value, version)])];
      if * {
        faults := faults + 1;
        return Err(error), Unheard(error);
      }
      return Ok(if a in held then Replaced(Some(version)) else Created(Some(version))), luck;
    }

    /** Removes the secret, never its binding. */
    method Delete(a: Address) returns (r: Result<(), StorageError>, ghost luck: Luck)
      modifies this`backends, this`faults
      ensures (State(), r) == Met(old(State()), Command.Delete(a), luck)
      ensures Deserved(config.unavailable, faults != old(faults), luck)
    {
      luck := if config.unavailable then Fails(Unavailable) else Works;
      var resolved := ResolveTarget(a, {CanDelete});
      if resolved.Err? {
        return Err(resolved.error), luck;
      }
      var b := resolved.value.0;
      var error: StorageError := *;
      if * {
        faults := faults + 1;
        return Err(error), Fails(error);
      }
      if a !in backends[b].held {
        return Err(NotFound), luck;
      }
      backends := backends[b := backends[b].(held := backends[b].held - {a})];
      if * {
        faults := faults + 1;
        return Err(error), Unheard(error);
      }
      return Ok(()), luck;
    }

    /** The backend copies the value and then deletes the old name; either step may fail, and so may
        taking the copy back. */
    method Rename(a: Address, newName: SecretName, version: Version) returns (r: Result<(), StorageError>, ghost luck: Luck)
      modifies this`backends, this`faults
      ensures (State(), r) == Met(old(State()), Command.Rename(a, newName, version), luck)
      ensures Deserved(config.unavailable, faults != old(faults), luck)
    {
      ghost var before := State();
      luck := if config.unavailable then Fails(Unavailable) else Works;
      var resolved := ResolveTarget(a, {CanWrite, CanDelete});
      if resolved.Err? {
        return Err(resolved.error), luck;
      }
      var to := Address(a.scope, newName);
      var fromBound := config.Binding(a);
      if fromBound.Err? {
        return Err(Unavailable), luck;
      }
      var toBound := config.Binding(to);
      if toBound.Err? {
        return Err(Unavailable), luck;
      }
      if fromBound.value.Some? || toBound.value.Some? {
        return Err(Conflict), luck;
      }
      var b := resolved.value.0;
      var held := backends[b].held;
      var error: StorageError := *;
      if * {
        faults := faults + 1;
        return Err(error), Fails(error);
      }
      if a !in held {
        return Err(NotFound), luck;
      }
      if to in held {
        return Err(Conflict), luck;
      }
      backends := backends[b := backends[b].(held := held[to := Stored(held[a].value, version)])];
      if * {
        faults := faults + 1;
        return Err(error), HalfDone(error);
      }
      ghost var copied := State();
      backends := backends[b := backends[b].(held := backends[b].held - {a})];
      assert State() == WithHeld(copied, b, copied.backends[b].held - {a});
      assert State() == WithHeld(before, b, Copied(held, a, to, version) - {a});
      if * {
        faults := faults + 1;
        return Err(error), Unheard(error);
      }
      return Ok(()), luck;
    }
  }

  /** The port behind the local authorizer: a denied scope never reaches the storage below. */
  class Authorized {
    const inner: FederatedStorage

    constructor (inner: FederatedStorage)
      ensures this.inner == inner
    {
      this.inner := inner;
    }

    method Check(a: Address) returns (allowed: bool)
      ensures allowed <==> a.scope.tenant == DEFAULT && a.scope.user == DEFAULT
    {
      return Decide(TenantAndUser(a.scope.tenant, a.scope.user)).Ok?;
    }

    method Read(a: Address) returns (r: Result<Revealed, StorageError>)
      modifies inner`faults
      ensures inner.faults == old(inner.faults) ==>
        r == if Decide(TenantAndUser(a.scope.tenant, a.scope.user)).Ok? && inner.config.unavailable then Err(Unavailable) else ReadPort(inner.State(), a)
      ensures inner.faults != old(inner.faults) ==> r.Err? && Decide(TenantAndUser(a.scope.tenant, a.scope.user)).Ok?
    {
      var allowed := Check(a);
      if !allowed {
        return Err(Denied);
      }
      r := inner.Read(a);
    }

    method Write(a: Address, value: SecretValue, version: Version) returns (r: Result<Written, StorageError>, ghost luck: Luck)
      modifies inner`backends, inner`faults
      ensures (inner.State(), Bare(r)) == Obeyed(old(inner.State()), Command.Write(a, value, version), luck)
      ensures Deserved(inner.config.unavailable, inner.faults != old(inner.faults), luck)
      ensures Decide(TenantAndUser(a.scope.tenant, a.scope.user)).Err? ==> inner.faults == old(inner.faults)
      ensures r.Ok? ==>
        var b := Mounted(old(inner.State()), a.scope);
        b.Ok? && b.value in old(inner.backends) && r.value == WrittenAt(old(inner.backends)[b.value].held, a, version)
    {
      var allowed := Check(a);
      if !allowed {
        return Err(Denied), if inner.config.unavailable then Fails(Unavailable) else Works;
      }
      r, luck := inner.Write(a, value, version);
    }

    method Delete(a: Address) returns (r: Result<(), StorageError>, ghost luck: Luck)
      modifies inner`backends, inner`faults
      ensures (inner.State(), r) == Obeyed(old(inner.State()), Command.Delete(a), luck)
      ensures Deserved(inner.config.unavailable, inner.faults != old(inner.faults), luck)
      ensures Decide(TenantAndUser(a.scope.tenant, a.scope.user)).Err? ==> inner.faults == old(inner.faults)
    {
      var allowed := Check(a);
      if !allowed {
        return Err(Denied), if inner.config.unavailable then Fails(Unavailable) else Works;
      }
      r, luck := inner.Delete(a);
    }

    /** Asked for the write, then for the delete. */
    method Rename(a: Address, newName: SecretName, version: Version) returns (r: Result<(), StorageError>, ghost luck: Luck)
      modifies inner`backends, inner`faults
      ensures (inner.State(), r) == Obeyed(old(inner.State()), Command.Rename(a, newName, version), luck)
      ensures Deserved(inner.config.unavailable, inner.faults != old(inner.faults), luck)
      ensures Decide(TenantAndUser(a.scope.tenant, a.scope.user)).Err? ==> inner.faults == old(inner.faults)
    {
      luck := if inner.config.unavailable then Fails(Unavailable) else Works;
      var mayWrite := Check(a);
      if !mayWrite {
        return Err(Denied), luck;
      }
      var mayDelete := Check(a);
      if !mayDelete {
        return Err(Denied), luck;
      }
      r, luck := inner.Rename(a, newName, version);
    }
  }
}
