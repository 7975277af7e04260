/** The file-backed configuration store as one process runs it: every read parses the file, every
    change rewrites it whole beside itself and renames the new one over it. */
module FileConfig {
  import opened Basics
  import opened Names
  import opened Port
  import opened Config
  import opened Document

  datatype StagedName = StagedName(pid: nat, nanos: nat)

  /** Where the operating system fails a change, if it does; a failed write leaves some bytes. */
  datatype Fault =
    | NoFault
    | NoDirectory
    | NoLock
    | CannotRead
    | CannotCreate
    | CannotWrite(left: Content)
    | CannotRename
    | CannotSyncDirectory

  /** A missing file is an empty one. */
  function Load(file: Option<Content>): Result<Document, StorageError> {
    match file
    case Some(content) => Parse(content)
    case None => Parse(Content.Toml(map[]))
  }

  lemma LoadedIsWellFormed(file: Option<Content>)
    ensures Load(file).Ok? ==> WellFormed(Load(file).value)
  {
    hide Parse;
    ParsedIsWellFormed(if file.Some? then file.value else Content.Toml(map[]));
  }

  /** With no file there is local mode's starting point. */
  lemma MissingFileIsLocal()
    ensures Load(None) == Ok(Document(map[], Settings(map[LOCAL_NAMESPACE := None], map[])))
  {
    var none: map<string, Toml> := map[];
    assert Gather(DecodeNamespace, [], 0) == Some(map[]) && Gather(DecodeBinding, [], 0) == Some(map[]);
    hide DecodeNamespace, DecodeBinding, Gather;
    assert none - {NAMESPACES, BINDINGS} == map[];
    assert ParseNamespaces(none) == Some(map[LOCAL_NAMESPACE := None]);
    assert ParseBindings(none) == Some(map[]);
  }

  /** A loaded document, changed in place by the operation that loaded it. */
  class OpenDocument {
    const rest: map<string, Toml>
    var namespaces: map<NamespaceKey, Mount>
    var bindings: map<Address, Locator>

    function Value(): Document
      reads this
    {
      Document(rest, Settings(namespaces, bindings))
    }

    constructor (d: Document)
      ensures Value() == d
    {
      rest, namespaces, bindings := d.rest, d.settings.namespaces, d.settings.bindings;
    }

    method InsertNamespace(key: NamespaceKey, mount: Mount) returns (r: Result<(), StorageError>)
      modifies this
      ensures Makes(old(Value()), Value(), Change.InsertNamespace(key, mount), r)
    {
      if key in namespaces {
        return Err(Conflict);
      }
      namespaces := namespaces[key := mount];
      return Ok(());
    }

    /** The local namespace is always present, so never removed. */
    method RemoveNamespace(key: NamespaceKey) returns (r: Result<(), StorageError>)
      modifies this
      ensures Makes(old(Value()), Value(), Change.RemoveNamespace(key), r)
    {
      if key == LOCAL_NAMESPACE {
        return Err(Conflict);
      }
      var removed := Lookup(namespaces, key);
      namespaces := namespaces - {key};
      if removed.None? {
        assert namespaces == old(namespaces);
        return Err(NotFound);
      }
      return Ok(());
    }

    method SetMount(key: NamespaceKey, mount: BackendRef) returns (r: Result<(), StorageError>)
      modifies this
      ensures Makes(old(Value()), Value(), Change.SetMount(key, mount), r)
    {
      if key !in namespaces {
        return Err(NotFound);
      }
      namespaces := namespaces[key := Some(mount)];
      return Ok(());
    }

    method InsertBinding(address: Address, locator: Locator) returns (r: Result<(), StorageError>)
      modifies this
      ensures Makes(old(Value()), Value(), Change.InsertBinding(address, locator), r)
    {
      if address in bindings {
        return Err(Conflict);
      }
      bindings := bindings[address := locator];
      return Ok(());
    }

    method RemoveBinding(address: Address) returns (r: Result<(), StorageError>)
      modifies this
      ensures Makes(old(Value()), Value(), Change.RemoveBinding(address), r)
    {
      var removed := Lookup(bindings, address);
      bindings := bindings - {address};
      if removed.None? {
        assert bindings == old(bindings);
        return Err(NotFound);
      }
      return Ok(());
    }

    method Apply(change: Change) returns (r: Result<(), StorageError>)
      modifies this
      ensures Makes(old(Value()), Value(), change, r)
    {
      match change
      case InsertNamespace(key, mount) => r := InsertNamespace(key, mount);
      case RemoveNamespace(key) => r := RemoveNamespace(key);
      case SetMount(key, mount) => r := SetMount(key, mount);
      case InsertBinding(address, locator) => r := InsertBinding(address, locator);
      case RemoveBinding(address) => r := RemoveBinding(address);
    }
  }

  /** The change was made whole, or refused and nothing made. */
  predicate Makes(before: Document, after: Document, change: Change, r: Result<(), StorageError>) {
    match ChangedDocument(before, change)
    case Ok(d) => after == d && r == Ok(())
    case Err(error) => after == before && r == Err(error)
  }

  class FileConfig {
    var file: Option<Content>
    var staged: map<StagedName, Content>

    constructor (file: Option<Content>)
      ensures this.file == file && staged == map[]
    {
      this.file := file;
      staged := map[];
    }

    method Namespace(key: NamespaceKey) returns (r: Result<Option<Mount>, StorageError>)
      ensures match Load(file)
              case Ok(d) => r == Ok(Lookup(d.settings.namespaces, key))
              case Err(error) => r == Err(error)
    {
      var d := ReadFile();
      if d.Err? {
        return Err(d.error);
      }
      return Ok(if key in d.value.settings.namespaces then Some(d.value.settings.namespaces[key]) else None);
    }

    method Binding(address: Address) returns (r: Result<Option<Locator>, StorageError>)
      ensures match Load(file)
              case Ok(d) => r == Ok(Lookup(d.settings.bindings, address))
              case Err(error) => r == Err(error)
    {
      var d := ReadFile();
      if d.Err? {
        return Err(d.error);
      }
      return Ok(if address in d.value.settings.bindings then Some(d.value.settings.bindings[address]) else None);
    }

    /** Whether any address of the namespace, of any user, is bound. */
    method NamespaceBound(key: NamespaceKey) returns (r: Result<bool, StorageError>)
      ensures match Load(file)
              case Ok(d) => r == Ok(HasBindings(d.settings, key))
              case Err(error) => r == Err(error)
    {
      var d := ReadFile();
      if d.Err? {
        return Err(d.error);
      }
      var rest := d.value.settings.bindings.Keys;
      while rest != {}
        invariant rest <= d.value.settings.bindings.Keys
        invariant forall a | a in d.value.settings.bindings && a !in rest :: KeyOf(a.scope) != key
        decreases |rest|
      {
        var a :| a in rest;
        if a.scope.tenant == key.tenant && a.scope.namespace == key.namespace {
          assert a in d.value.settings.bindings && KeyOf(a.scope) == key;
          return Ok(true);
        }
        rest := rest - {a};
      }
      return Ok(false);
    }

    method ReadFile() returns (r: Result<Document, StorageError>)
      ensures r == Load(file)
    {
      hide Parse;
      if file.None? {
        r := Read(Content.Toml(map[]));
      } else {
        r := Read(file.value);
      }
    }

    /** The new text goes to a fresh file beside the old one and is renamed over it; a fault before
        the rename takes the fresh file away again. */
    method Replace(name: StagedName, content: Content, fault: Fault) returns (done: bool)
      modifies this
      ensures file == if name in old(staged) || fault.CannotCreate? || fault.CannotWrite? || fault.CannotRename? then old(file) else Some(content)
      ensures done ==> file == Some(content)
      ensures done <==> name !in old(staged) && !fault.CannotCreate? && !fault.CannotWrite? && !fault.CannotRename? && !fault.CannotSyncDirectory?
      ensures staged == old(staged) - {name}
    {
      if name in staged || fault.CannotCreate? {
        staged := staged - {name};
        return false;
      }
      staged := staged[name := if fault.CannotWrite? then fault.left else content];
      if fault.CannotWrite? || fault.CannotRename? {
        staged := staged - {name};
        return false;
      }
      file := Some(staged[name]);
      staged := staged - {name};
      return !fault.CannotSyncDirectory?;
    }

    /** One change. A fault before the file is read, a file that does not parse, a change the records
        refuse: each is answered so and writes nothing. Otherwise the file reads as after the change
        exactly when the staged file was new and made, written and renamed, and the answer is Ok
        exactly when the directory was synced as well. Keys the store does not own are kept. */
    method Change(change: Change, name: StagedName, fault: Fault) returns (r: Result<(), StorageError>)
      modifies this
      ensures staged == old(staged) || staged == old(staged) - {name}
      ensures if fault.NoDirectory? || fault.NoLock? || fault.CannotRead? then file == old(file) && r == Err(Unavailable)
              else
                match Load(old(file))
                case Err(error) => file == old(file) && r == Err(Unavailable)
                case Ok(d) =>
                  match ChangedDocument(d, change)
                  case Err(error) => file == old(file) && r == Err(error)
                  case Ok(after) =>
                    var made := name !in old(staged) && !fault.CannotCreate? && !fault.CannotWrite? && !fault.CannotRename?;
                    && (if made then Load(file) == Ok(after) else file == old(file))
                    && r == (if made && !fault.CannotSyncDirectory? then Ok(()) else Err(Unavailable))
                    && after.rest == d.rest
    {
      LoadedIsWellFormed(file);
      LoadRefuses(file);
      hide Parse, WellFormed, Enumerates;
      if fault.NoDirectory? || fault.NoLock? || fault.CannotRead? {
        return Err(Unavailable);
      }
      var loaded := ReadFile();
      if loaded.Err? {
        return Err(loaded.error);
      }
      var document := new OpenDocument(loaded.value);
      var answer := document.Apply(change);
      if answer.Err? {
        return Err(answer.error);
      }
      ChangesKeepForm(loaded.value, change);
      hide ChangedDocument;
      var text := RenderOpen(document);
      var done := Replace(name, text, fault);
      return if done then Ok(()) else Err(Unavailable);
    }

    /** Rendering walks both maps; whatever the walk, the text reads back. */
    method RenderOpen(document: OpenDocument) returns (text: Content)
      requires WellFormed(document.Value())
      ensures Parse(text) == Ok(document.Value())
    {
      hide Enumerates, Parse;
      var keys := Walk(document.namespaces);
      var addresses := Walk(document.bindings);
      RoundTrip(document.Value(), keys, addresses);
      text := Render(document.Value(), keys, addresses);
    }

    /** Any one operation with no fault, its staged name new. */
    method Perform(op: Operation, name: StagedName) returns (reply: Reply)
      requires name !in staged && Load(file).Ok?
      modifies this
      ensures staged == old(staged)
      ensures FileOperates(old(file), op, file, reply)
    {
      hide Load, ChangedDocument;
      assert staged - {name} == staged;
      match op {
        case Changing(change) => var r := Change(change, name, NoFault); return Did(r);
        case NamespaceAt(key) => var r := Namespace(key); return if r.Ok? then Found(r.value) else NotReached;
        case AllNamespaces =>
          var d := ReadFile();
          return if d.Ok? then Namespaces(d.value.settings.namespaces) else NotReached;
        case BindingAt(address) => var r := Binding(address); return if r.Ok? then Bound(r.value) else NotReached;
        case BoundWithin(key) => var r := NamespaceBound(key); return if r.Ok? then Within(r.value) else NotReached;
      }
    }
  }

  /** One fault-free operation of the file store: what it answers and what the file then reads as. */
  predicate FileOperates(before: Option<Content>, op: Operation, after: Option<Content>, reply: Reply) {
    match Load(before)
    case Err(_) => false
    case Ok(d) =>
      match op
      case Changing(change) =>
        (match ChangedDocument(d, change)
         case Ok(changed) => Load(after) == Ok(changed) && reply == Did(Ok(()))
         case Err(error) => after == before && reply == Did(Err(error)))
      case NamespaceAt(key) => after == before && reply == Found(Lookup(d.settings.namespaces, key))
      case AllNamespaces => after == before && reply == Namespaces(d.settings.namespaces)
      case BindingAt(address) => after == before && reply == Bound(Lookup(d.settings.bindings, address))
      case BoundWithin(key) => after == before && reply == Within(HasBindings(d.settings, key))
  }

  lemma LoadRefuses(file: Option<Content>)
    ensures Load(file).Err? ==> Load(file).error == Unavailable
  {
    hide ParseNamespaces, ParseBindings;
  }

  // ---- The file store is the memory store ----

  predicate RemovesLocal(op: Operation) {
    op == Changing(RemoveNamespace(LOCAL_NAMESPACE))
  }

  /** One operation on the file answers and leaves what it would in memory, except a removal of the
      local namespace, which memory would make and the file store refuses. */
  lemma FileIsMemory(before: Option<Content>, op: Operation, after: Option<Content>, reply: Reply)
    requires FileOperates(before, op, after, reply)
    ensures Load(before).Ok? && Load(after).Ok? && Load(after).value.rest == Load(before).value.rest
    ensures var s := Load(before).value.settings;
            if RemovesLocal(op) then
              && after == before && reply == Did(Err(Conflict))
              && ReplyOf(s, op) == Did(Ok(())) && SettingsAfter(s, op) == s.(namespaces := s.namespaces - {LOCAL_NAMESPACE})
            else reply == ReplyOf(s, op) && Load(after).value.settings == SettingsAfter(s, op)
  {
    LoadedIsWellFormed(before);
    hide Load, HasBindings;
  }

  /** A fault-free run of the file store: the file before each operation and after the last. */
  predicate FileRun(files: seq<Option<Content>>, ops: seq<Operation>, replies: seq<Reply>) {
    && |files| == |ops| + 1 && |replies| == |ops|
    && forall i :: 0 <= i < |ops| ==> FileOperates(files[i], ops[i], files[i + 1], replies[i])
  }

  /** The memory store after the first `n` operations, those that remove the local namespace left
      out. */
  function MemoryAfter(s: Settings, ops: seq<Operation>, n: nat): Settings
    requires n <= |ops|
  {
    if n == 0 then s
    else if RemovesLocal(ops[n - 1]) then MemoryAfter(s, ops, n - 1)
    else SettingsAfter(MemoryAfter(s, ops, n - 1), ops[n - 1])
  }

  /** Over every run of operations, reads and changes alike, the file reads as the memory store that
      starts from its settings, the keys the store does not own are kept, and every answer is that
      store's, except that a removal of the local namespace is a conflict and changes nothing. */
  lemma {:induction false} FileRunIsMemoryRun(files: seq<Option<Content>>, ops: seq<Operation>, replies: seq<Reply>, n: nat)
    requires n <= |ops| && FileRun(files, ops, replies) && Load(files[0]).Ok?
    ensures var d := Load(files[0]).value;
            && Load(files[n]) == Ok(Document(d.rest, MemoryAfter(d.settings, ops, n)))
            && forall i :: 0 <= i < n ==>
                 replies[i] == if RemovesLocal(ops[i]) then Did(Err(Conflict)) else ReplyOf(MemoryAfter(d.settings, ops, i), ops[i])
  {
    hide Load, FileOperates, ReplyOf, SettingsAfter;
    if n > 0 {
      FileRunIsMemoryRun(files, ops, replies, n - 1);
      FileIsMemory(files[n - 1], ops[n - 1], files[n], replies[n - 1]);
    }
  }
}
