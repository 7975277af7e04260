/** The namespace configuration store: namespaces with their mounts, and bindings, kept in memory. */
module Config {
  import opened Basics
  import opened Names
  import opened Port

  type Mount = Option<BackendRef>

  datatype Settings = Settings(namespaces: map<NamespaceKey, Mount>, bindings: map<Address, Locator>)

  const LOCAL_NAMESPACE: NamespaceKey := NamespaceKey(DEFAULT, DEFAULT)

  function EffectiveMount(mount: Mount): BackendRef {
    if mount.Some? then mount.value else DEFAULT_MOUNT
  }

  datatype Change =
    | InsertNamespace(key: NamespaceKey, mount: Mount)
    | RemoveNamespace(key: NamespaceKey)
    | SetMount(key: NamespaceKey, to: BackendRef)
    | InsertBinding(address: Address, locator: Locator)
    | RemoveBinding(address: Address)

  /** What one change makes of the records, or the collision that refuses it. */
  function Changed(s: Settings, change: Change): Result<Settings, StorageError> {
    match change
    case InsertNamespace(key, mount) =>
      if key in s.namespaces then Err(Conflict) else Ok(s.(namespaces := s.namespaces[key := mount]))
    case RemoveNamespace(key) =>
      if key !in s.namespaces then Err(NotFound) else Ok(s.(namespaces := s.namespaces - {key}))
    case SetMount(key, mount) =>
      if key !in s.namespaces then Err(NotFound) else Ok(s.(namespaces := s.namespaces[key := Some(mount)]))
    case InsertBinding(address, locator) =>
      if address in s.bindings then Err(Conflict) else Ok(s.(bindings := s.bindings[address := locator]))
    case RemoveBinding(address) =>
      if address !in s.bindings then Err(NotFound) else Ok(s.(bindings := s.bindings - {address}))
  }

  /** Which changes collide with what is there, which miss it, and what the others leave. */
  lemma ChangedIff(s: Settings, change: Change)
    ensures Changed(s, change) == Err(Conflict) <==>
      (change.InsertNamespace? && change.key in s.namespaces) || (change.InsertBinding? && change.address in s.bindings)
    ensures Changed(s, change) == Err(NotFound) <==>
      || ((change.RemoveNamespace? || change.SetMount?) && change.key !in s.namespaces)
      || (change.RemoveBinding? && change.address !in s.bindings)
    ensures Changed(s, change).Err? ==> Changed(s, change).error in {Conflict, NotFound}
    ensures Changed(s, change).Ok? ==>
      var after := Changed(s, change).value;
      match change
      case InsertNamespace(key, mount) => after == Settings(s.namespaces[key := mount], s.bindings)
      case RemoveNamespace(key) => after == Settings(s.namespaces - {key}, s.bindings)
      case SetMount(key, to) => after == Settings(s.namespaces[key := Some(to)], s.bindings)
      case InsertBinding(a, locator) => after == Settings(s.namespaces, s.bindings[a := locator])
      case RemoveBinding(a) => after == Settings(s.namespaces, s.bindings - {a})
  {
  }

  function Lookup<K, V>(m: map<K, V>, k: K): Option<V> {
    if k in m then Some(m[k]) else None
  }

  predicate HasBindings(s: Settings, key: NamespaceKey) {
    exists a :: a in s.bindings && KeyOf(a.scope) == key
  }

  // ---- The store's operations, reads included ----

  datatype Operation =
    | Changing(change: Change)
    | NamespaceAt(key: NamespaceKey)
    | AllNamespaces
    | BindingAt(address: Address)
    | BoundWithin(key: NamespaceKey)

  datatype Reply =
    | Did(result: Result<(), StorageError>)
    | Found(namespace: Option<Mount>)
    | Namespaces(all: map<NamespaceKey, Mount>)
    | Bound(locator: Option<Locator>)
    | Within(any: bool)
    | NotReached

  function ReplyOf(s: Settings, op: Operation): Reply {
    match op
    case Changing(change) =>
      (match Changed(s, change)
       case Ok(_) => Did(Ok(()))
       case Err(error) => Did(Err(error)))
    case NamespaceAt(key) => Found(Lookup(s.namespaces, key))
    case AllNamespaces => Namespaces(s.namespaces)
    case BindingAt(address) => Bound(Lookup(s.bindings, address))
    case BoundWithin(key) => Within(HasBindings(s, key))
  }

  function SettingsAfter(s: Settings, op: Operation): Settings {
    if op.Changing? && Changed(s, op.change).Ok? then Changed(s, op.change).value else s
  }

  class InMemoryConfig {
    var unavailable: bool
    var namespaces: map<NamespaceKey, Mount>
    var bindings: map<Address, Locator>

    function State(): Settings
      reads this
    {
      Settings(namespaces, bindings)
    }

    constructor ()
      ensures State() == Settings(map[], map[]) && !unavailable
    {
      unavailable, namespaces, bindings := false, map[], map[];
    }

    /** Local mode's starting point. */
    constructor Local()
      ensures State() == Settings(map[LOCAL_NAMESPACE := None], map[]) && !unavailable
    {
      unavailable, namespaces, bindings := false, map[LOCAL_NAMESPACE := None], map[];
    }

    method Namespace(key: NamespaceKey) returns (r: Result<Option<Mount>, StorageError>)
      ensures r == if unavailable then Err(Unavailable) else Ok(Lookup(namespaces, key))
    {
      if unavailable {
        return Err(Unavailable);
      }
      return Ok(if key in namespaces then Some(namespaces[key]) else None);
    }

    method Binding(address: Address) returns (r: Result<Option<Locator>, StorageError>)
      ensures r == if unavailable then Err(Unavailable) else Ok(Lookup(bindings, address))
    {
      if unavailable {
        return Err(Unavailable);
      }
      return Ok(if address in bindings then Some(bindings[address]) else None);
    }

    /** Whether any address of the namespace, of any user, is bound. */
    method NamespaceBound(key: NamespaceKey) returns (r: Result<bool, StorageError>)
      ensures r == if unavailable then Err(Unavailable) else Ok(HasBindings(State(), key))
    {
      if unavailable {
        return Err(Unavailable);
      }
      var rest := bindings.Keys;
      while rest != {}
        invariant rest <= bindings.Keys
        invariant forall a | a in bindings && a !in rest :: KeyOf(a.scope) != key
        decreases |rest|
      {
        var a :| a in rest;
        if a.scope.tenant == key.tenant && a.scope.namespace == key.namespace {
          assert a in State().bindings && KeyOf(a.scope) == key;
          return Ok(true);
        }
        rest := rest - {a};
      }
      return Ok(false);
    }

    method AddNamespace(key: NamespaceKey, mount: Mount) returns (r: Result<(), StorageError>)
      modifies this`namespaces
      ensures Answers(old(State()), State(), InsertNamespace(key, mount), unavailable, r)
    {
      if unavailable {
        return Err(Unavailable);
      }
      if key in namespaces {
        return Err(Conflict);
      }
      namespaces := namespaces[key := mount];
      return Ok(());
    }

    method DropNamespace(key: NamespaceKey) returns (r: Result<(), StorageError>)
      modifies this`namespaces
      ensures Answers(old(State()), State(), RemoveNamespace(key), unavailable, r)
    {
      if unavailable {
        return Err(Unavailable);
      }
      if key !in namespaces {
        return Err(NotFound);
      }
      namespaces := namespaces - {key};
      return Ok(());
    }

    method Remount(key: NamespaceKey, mount: BackendRef) returns (r: Result<(), StorageError>)
      modifies this`namespaces
      ensures Answers(old(State()), State(), SetMount(key, mount), unavailable, r)
    {
      if unavailable {
        return Err(Unavailable);
      }
      if key !in namespaces {
        return Err(NotFound);
      }
      namespaces := namespaces[key := Some(mount)];
      return Ok(());
    }

    method Bind(address: Address, locator: Locator) returns (r: Result<(), StorageError>)
      modifies this`bindings
      ensures Answers(old(State()), State(), InsertBinding(address, locator), unavailable, r)
    {
      if unavailable {
        return Err(Unavailable);
      }
      if address in bindings {
        return Err(Conflict);
      }
      bindings := bindings[address := locator];
      return Ok(());
    }

    method Unbind(address: Address) returns (r: Result<(), StorageError>)
      modifies this`bindings
      ensures Answers(old(State()), State(), RemoveBinding(address), unavailable, r)
    {
      if unavailable {
        return Err(Unavailable);
      }
      if address !in bindings {
        return Err(NotFound);
      }
      bindings := bindings - {address};
      return Ok(());
    }

    /** Any one operation. */
    method Perform(op: Operation) returns (reply: Reply)
      modifies this`namespaces, this`bindings
      ensures !unavailable ==> reply == ReplyOf(old(State()), op) && State() == SettingsAfter(old(State()), op)
      ensures unavailable ==> State() == old(State()) && reply == if op.Changing? then Did(Err(Unavailable)) else NotReached
    {
      match op {
        case Changing(InsertNamespace(key, mount)) => var r := AddNamespace(key, mount); return Did(r);
        case Changing(RemoveNamespace(key)) => var r := DropNamespace(key); return Did(r);
        case Changing(SetMount(key, mount)) => var r := Remount(key, mount); return Did(r);
        case Changing(InsertBinding(address, locator)) => var r := Bind(address, locator); return Did(r);
        case Changing(RemoveBinding(address)) => var r := Unbind(address); return Did(r);
        case NamespaceAt(key) => var r := Namespace(key); return if r.Ok? then Found(r.value) else NotReached;
        case AllNamespaces => return if unavailable then NotReached else Namespaces(namespaces);
        case BindingAt(address) => var r := Binding(address); return if r.Ok? then Bound(r.value) else NotReached;
        case BoundWithin(key) => var r := NamespaceBound(key); return if r.Ok? then Within(r.value) else NotReached;
      }
    }
  }

  /** A change that is answered Ok took effect whole; any refusal changed nothing. */
  predicate Answers(before: Settings, after: Settings, change: Change, unavailable: bool, answer: Result<(), StorageError>) {
    if unavailable then after == before && answer == Err(Unavailable)
    else
      match Changed(before, change)
      case Ok(s) => after == s && answer == Ok(())
      case Err(error) => after == before && answer == Err(error)
  }
}
