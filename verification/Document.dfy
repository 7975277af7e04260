/** The configuration file's text: a TOML table in which two arrays of records are the store's own
    and every other key is kept. Reading back what was rendered gives the same document. */
module Document {
  import opened Basics
  import opened Names
  import opened Port
  import opened Config

  /** A TOML value, as far as the records need it. */
  datatype Toml = Text(text: string) | List(items: seq<Toml>) | Table(fields: map<string, Toml>) | Scalar(raw: string)

  /** A file's bytes: TOML, which is one table, or not. */
  datatype Content = Toml(table: map<string, Toml>) | NotToml

  const NAMESPACES: string := "namespace"
  const BINDINGS: string := "binding"

  datatype Document = Document(rest: map<string, Toml>, settings: Settings)

  // ---- Records ----

  function KindText(kind: BackendKind): string {
    match kind
    case Keychain => "keychain"
    case Onepassword => "onepassword"
    case Remote => "remote"
  }

  function ParseKind(t: string): Option<BackendKind> {
    if t == "keychain" then Some(Keychain)
    else if t == "onepassword" then Some(Onepassword)
    else if t == "remote" then Some(Remote)
    else None
  }

  /** The text a record holds under a key. */
  function TextAt(fields: map<string, Toml>, key: string): Option<string> {
    if key in fields && fields[key].Text? then Some(fields[key].text) else None
  }

  function ScopeNameAt(fields: map<string, Toml>, key: string): Option<ScopeName> {
    match TextAt(fields, key)
    case Some(t) => if ParseScopeName(t).Ok? then Some(t) else None
    case None => None
  }

  /** A mount's table; keys it does not know are passed over. */
  function DecodeMount(v: Toml): Option<BackendRef> {
    if !v.Table? || TextAt(v.fields, "kind").None? then None
    else
      match (ParseKind(TextAt(v.fields, "kind").value), ScopeNameAt(v.fields, "label"))
      case (Some(kind), Some(name)) => Some(BackendRef(kind, name))
      case _ => None
  }

  function EncodeMount(mount: BackendRef): Toml {
    Table(map["kind" := Text(KindText(mount.kind)), "label" := Text(mount.name)])
  }

  /** A namespace record; an unknown key refuses it. */
  function DecodeNamespace(v: Toml): Option<(NamespaceKey, Mount)> {
    if !v.Table? || !(v.fields.Keys <= {"tenant", "name", "mount"}) then None
    else
      match (ScopeNameAt(v.fields, "tenant"), ScopeNameAt(v.fields, "name"))
      case (Some(tenant), Some(name)) =>
        if "mount" !in v.fields then Some((NamespaceKey(tenant, name), None))
        else
          (match DecodeMount(v.fields["mount"])
           case Some(mount) => Some((NamespaceKey(tenant, name), Some(mount)))
           case None => None)
      case _ => None
  }

  function EncodeNamespace(key: NamespaceKey, mount: Mount): Toml {
    var fields := map["tenant" := Text(key.tenant), "name" := Text(key.namespace)];
    Table(if mount.Some? then fields["mount" := EncodeMount(mount.value)] else fields)
  }

  function DecodeBinding(v: Toml): Option<(Address, Locator)> {
    if !v.Table? || !(v.fields.Keys <= {"tenant", "namespace", "user", "name", "locator"}) then None
    else
      match (ScopeNameAt(v.fields, "tenant"), ScopeNameAt(v.fields, "namespace"), ScopeNameAt(v.fields, "user"),
             TextAt(v.fields, "name"), TextAt(v.fields, "locator"))
      case (Some(tenant), Some(namespace), Some(user), Some(name), Some(locator)) =>
        if ParseName(name).Ok? then Some((Address(Scope(tenant, namespace, user), name), locator)) else None
      case _ => None
  }

  function EncodeBinding(a: Address, locator: Locator): Toml {
    Table(map["tenant" := Text(a.scope.tenant), "namespace" := Text(a.scope.namespace), "user" := Text(a.scope.user),
              "name" := Text(a.name), "locator" := Text(locator)])
  }

  /** The value is a mount's table: its kind by name and its label. */
  predicate MountIs(v: Toml, mount: BackendRef) {
    && v.Table? && "kind" in v.fields && "label" in v.fields && v.fields["label"] == Text(mount.name)
    && v.fields["kind"] == Text(match mount.kind case Keychain => "keychain" case Onepassword => "onepassword" case Remote => "remote")
  }

  lemma DecodeMountIff(v: Toml, mount: BackendRef)
    ensures DecodeMount(v) == Some(mount) <==> MountIs(v, mount)
  {
    hide ParseScopeName;
  }

  /** What a namespace record is: a tenant and a name, a mount or none, and no other key. */
  predicate NamespaceIs(v: Toml, key: NamespaceKey, mount: Mount) {
    && v.Table? && v.fields.Keys == {"tenant", "name"} + (if mount.Some? then {"mount"} else {})
    && v.fields["tenant"] == Text(key.tenant) && v.fields["name"] == Text(key.namespace)
    && (mount.Some? ==> MountIs(v.fields["mount"], mount.value))
  }

  /** And a binding record: the address part by part, and the locator. */
  predicate BindingIs(v: Toml, a: Address, locator: Locator) {
    v == Table(map["tenant" := Text(a.scope.tenant), "namespace" := Text(a.scope.namespace), "user" := Text(a.scope.user),
                   "name" := Text(a.name), "locator" := Text(locator)])
  }

  /** A record is read exactly when it is one, and written as one. */
  lemma NamespaceIff(v: Toml, key: NamespaceKey, mount: Mount)
    ensures DecodeNamespace(v) == Some((key, mount)) <==> NamespaceIs(v, key, mount)
    ensures NamespaceIs(EncodeNamespace(key, mount), key, mount)
  {
    if v.Table? && "mount" in v.fields && mount.Some? {
      DecodeMountIff(v.fields["mount"], mount.value);
    }
    hide ParseScopeName, DecodeMount;
  }

  lemma BindingIff(v: Toml, a: Address, locator: Locator)
    ensures DecodeBinding(v) == Some((a, locator)) <==> BindingIs(v, a, locator)
    ensures BindingIs(EncodeBinding(a, locator), a, locator)
  {
    hide ParseScopeName, ParseName;
    if DecodeBinding(v) == Some((a, locator)) {
      assert v.fields == map["tenant" := Text(a.scope.tenant), "namespace" := Text(a.scope.namespace), "user" := Text(a.scope.user),
                             "name" := Text(a.name), "locator" := Text(locator)];
    }
  }

  lemma NamespaceRecord(key: NamespaceKey, mount: Mount)
    ensures DecodeNamespace(EncodeNamespace(key, mount)) == Some((key, mount))
  {
    hide ParseScopeName;
    if mount.Some? {
      assert DecodeMount(EncodeMount(mount.value)) == Some(mount.value);
    }
  }

  lemma BindingRecord(a: Address, locator: Locator)
    ensures DecodeBinding(EncodeBinding(a, locator)) == Some((a, locator))
  {
    hide ParseScopeName, ParseName;
  }

  // ---- Reading ----

  /** The first `n` records gathered into a map; a bad record or a repeated key refuses the file. */
  function Gather<K, V>(decode: Toml -> Option<(K, V)>, records: seq<Toml>, n: nat): Option<map<K, V>>
    requires n <= |records|
  {
    if n == 0 then Some(map[])
    else
      match (Gather(decode, records, n - 1), decode(records[n - 1]))
      case (Some(so), Some((k, v))) => if k in so then None else Some(so[k := v])
      case _ => None
  }

  /** The records under a key: none when the key is absent, a refusal when it holds no array. */
  function Records(table: map<string, Toml>, key: string): Option<seq<Toml>> {
    if key !in table then Some([])
    else if table[key].List? then Some(table[key].items)
    else None
  }

  function WithDefault(namespaces: map<NamespaceKey, Mount>): map<NamespaceKey, Mount> {
    if LOCAL_NAMESPACE in namespaces then namespaces else namespaces[LOCAL_NAMESPACE := None]
  }

  function ParseNamespaces(table: map<string, Toml>): Option<map<NamespaceKey, Mount>> {
    match Records(table, NAMESPACES)
    case Some(records) =>
      (match Gather(DecodeNamespace, records, |records|)
       case Some(namespaces) => Some(WithDefault(namespaces))
       case None => None)
    case None => None
  }

  function ParseBindings(table: map<string, Toml>): Option<map<Address, Locator>> {
    match Records(table, BINDINGS)
    case Some(records) => Gather(DecodeBinding, records, |records|)
    case None => None
  }

  function Parse(content: Content): Result<Document, StorageError> {
    if content.NotToml? then Err(Unavailable)
    else
      match (ParseNamespaces(content.table), ParseBindings(content.table))
      case (Some(namespaces), Some(bindings)) =>
        Ok(Document(content.table - {NAMESPACES, BINDINGS}, Settings(namespaces, bindings)))
      case _ => Err(Unavailable)
  }

  /** Every record is good, and no two have one key. */
  predicate Apart<K(==), V>(decode: Toml -> Option<(K, V)>, records: seq<Toml>, n: nat)
    requires n <= |records|
  {
    && (forall i :: 0 <= i < n ==> decode(records[i]).Some?)
    && forall i, j :: 0 <= i < j < n ==> decode(records[i]).value.0 != decode(records[j]).value.0
  }

  predicate Maps<K(==), V(==)>(m: map<K, V>, k: K, v: V) {
    k in m && m[k] == v
  }

  /** The record is one of the first `n`. */
  predicate Recorded<K(==), V(==)>(decode: Toml -> Option<(K, V)>, records: seq<Toml>, n: nat, k: K, v: V)
    requires n <= |records|
  {
    exists i :: 0 <= i < n && decode(records[i]) == Some((k, v))
  }

  /** Records are gathered exactly when each is good and no two have one key, and then the map holds
      exactly what they say. */
  lemma {:induction false} GatherIff<K, V>(decode: Toml -> Option<(K, V)>, records: seq<Toml>, n: nat)
    requires n <= |records|
    ensures Gather(decode, records, n).Some? <==> Apart(decode, records, n)
    ensures Gather(decode, records, n).Some? ==>
      forall k, v :: Maps(Gather(decode, records, n).value, k, v) <==> Recorded(decode, records, n, k, v)
  {
    if n > 0 {
      GatherIff(decode, records, n - 1);
      if Gather(decode, records, n - 1).Some? && decode(records[n - 1]).Some? {
        var before := Gather(decode, records, n - 1).value;
        var (key, value) := decode(records[n - 1]).value;
        if key in before {
          assert Maps(before, key, before[key]);
          assert !Apart(decode, records, n);
        } else {
          forall i | 0 <= i < n - 1
            ensures decode(records[i]).value.0 != key
          {
            assert Recorded(decode, records, n - 1, decode(records[i]).value.0, decode(records[i]).value.1);
            assert Maps(before, decode(records[i]).value.0, decode(records[i]).value.1);
          }
          GatherGrows(decode, records, n, before, key, value);
        }
      }
    }
  }

  lemma GatherGrows<K, V>(decode: Toml -> Option<(K, V)>, records: seq<Toml>, n: nat, before: map<K, V>, key: K, value: V)
    requires 0 < n <= |records| && key !in before && decode(records[n - 1]) == Some((key, value))
    requires forall k, v :: Maps(before, k, v) <==> Recorded(decode, records, n - 1, k, v)
    ensures forall k, v :: Maps(before[key := value], k, v) <==> Recorded(decode, records, n, k, v)
  {
    forall k, v
      ensures Maps(before[key := value], k, v) <==> Recorded(decode, records, n, k, v)
    {
      assert Maps(before, k, v) <==> Recorded(decode, records, n - 1, k, v);
      assert Recorded(decode, records, n, k, v) <==> Recorded(decode, records, n - 1, k, v) || (k == key && v == value);
      assert k == key ==> !Maps(before, k, v);
    }
  }

  /** Nothing under the key, or an array of good records with keys of their own. */
  predicate Readable<K(==), V>(table: map<string, Toml>, key: string, decode: Toml -> Option<(K, V)>) {
    key in table ==> table[key].List? && Apart(decode, table[key].items, |table[key].items|)
  }

  /** One of the records under the key. */
  predicate Says<K(==), V(==)>(table: map<string, Toml>, key: string, decode: Toml -> Option<(K, V)>, k: K, v: V) {
    key in table && table[key].List? && Recorded(decode, table[key].items, |table[key].items|, k, v)
  }

  /** What the store has under a namespace's key: what a record says, or for the default namespace the
      default mount when none says otherwise. */
  ghost predicate Mounts(table: map<string, Toml>, key: NamespaceKey, mount: Mount) {
    || Says(table, "namespace", DecodeNamespace, key, mount)
    || (key == NamespaceKey("default", "default") && mount == None
        && forall other :: !Says(table, "namespace", DecodeNamespace, key, other))
  }

  lemma NamespacesSay(table: map<string, Toml>)
    ensures ParseNamespaces(table).Some? <==> Readable(table, "namespace", DecodeNamespace)
    ensures ParseNamespaces(table).Some? ==> forall key, mount :: Maps(ParseNamespaces(table).value, key, mount) <==> Mounts(table, key, mount)
  {
    hide DecodeNamespace, Gather;
    var records := Records(table, "namespace");
    if records.Some? {
      GatherIff(DecodeNamespace, records.value, |records.value|);
    }
    if ParseNamespaces(table).Some? {
      var so := Gather(DecodeNamespace, records.value, |records.value|).value;
      forall key, mount
        ensures Maps(so, key, mount) <==> Says(table, "namespace", DecodeNamespace, key, mount)
      {
        assert Maps(so, key, mount) <==> Recorded(DecodeNamespace, records.value, |records.value|, key, mount);
      }
      WithDefaultMounts(table, so);
    }
  }

  lemma WithDefaultMounts(table: map<string, Toml>, so: map<NamespaceKey, Mount>)
    requires forall key, mount :: Maps(so, key, mount) <==> Says(table, "namespace", DecodeNamespace, key, mount)
    ensures forall key, mount :: Maps(WithDefault(so), key, mount) <==> Mounts(table, key, mount)
  {
    hide Says;
    forall key, mount
      ensures Maps(WithDefault(so), key, mount) <==> Mounts(table, key, mount)
    {
      if key in so {
        assert Maps(so, key, so[key]);
      }
    }
  }

  lemma BindingsSay(table: map<string, Toml>)
    ensures ParseBindings(table).Some? <==> Readable(table, "binding", DecodeBinding)
    ensures ParseBindings(table).Some? ==>
      forall a, locator :: Maps(ParseBindings(table).value, a, locator) <==> Says(table, "binding", DecodeBinding, a, locator)
  {
    hide DecodeBinding, Gather;
    var records := Records(table, "binding");
    if records.Some? {
      GatherIff(DecodeBinding, records.value, |records.value|);
    }
  }

  /** A file is read exactly when it is a table whose two arrays are readable; then the store has what
      the records say and the default namespace, and every other key of the table is kept. */
  lemma ParseIff(content: Content)
    ensures Parse(content).Ok? <==>
      && content.Toml? && Readable(content.table, "namespace", DecodeNamespace) && Readable(content.table, "binding", DecodeBinding)
    ensures Parse(content).Err? ==> Parse(content).error == Unavailable
    ensures Parse(content).Ok? ==>
      var (table, d) := (content.table, Parse(content).value);
      && d.rest == table - {"namespace", "binding"}
      && (forall a, locator :: Maps(d.settings.bindings, a, locator) <==> Says(table, "binding", DecodeBinding, a, locator))
      && (forall key, mount :: Maps(d.settings.namespaces, key, mount) <==> Mounts(table, key, mount))
  {
    hide Mounts, Says, ParseNamespaces, ParseBindings, Readable, Maps;
    if content.Toml? {
      NamespacesSay(content.table);
      BindingsSay(content.table);
    }
  }

  lemma {:induction false} GatherStops<K, V>(decode: Toml -> Option<(K, V)>, records: seq<Toml>, n: nat)
    requires n <= |records| && Gather(decode, records, n).None?
    ensures Gather(decode, records, |records|).None?
    decreases |records| - n
  {
    if n < |records| {
      GatherStops(decode, records, n + 1);
    }
  }

  /** An array's records, each inserted into the map. */
  method ReadRecords<K(==), V>(decode: Toml -> Option<(K, V)>, records: seq<Toml>) returns (r: Option<map<K, V>>)
    ensures r == Gather(decode, records, |records|)
  {
    var so: map<K, V> := map[];
    var i := 0;
    while i < |records|
      invariant 0 <= i <= |records| && Gather(decode, records, i) == Some(so)
    {
      var record := decode(records[i]);
      if record.None? || record.value.0 in so {
        GatherStops(decode, records, i + 1);
        return None;
      }
      so := so[record.value.0 := record.value.1];
      i := i + 1;
    }
    return Some(so);
  }

  /** The file as the store reads it: each array taken out of the table and read in turn, the local
      namespace added when it is missing. */
  method Read(content: Content) returns (r: Result<Document, StorageError>)
    ensures r == Parse(content)
  {
    hide Gather, DecodeNamespace, DecodeBinding, ParseName, ParseScopeName;
    if content.NotToml? {
      return Err(Unavailable);
    }
    var records := Records(content.table, NAMESPACES);
    if records.None? {
      return Err(Unavailable);
    }
    var namespaces := ReadRecords(DecodeNamespace, records.value);
    if namespaces.None? {
      return Err(Unavailable);
    }
    var completed := namespaces.value;
    if LOCAL_NAMESPACE !in completed {
      completed := completed[LOCAL_NAMESPACE := None];
    }
    var bound := Records(content.table, BINDINGS);
    if bound.None? {
      return Err(Unavailable);
    }
    var bindings := ReadRecords(DecodeBinding, bound.value);
    if bindings.None? {
      return Err(Unavailable);
    }
    return Ok(Document(content.table - {NAMESPACES, BINDINGS}, Settings(completed, bindings.value)));
  }

  // ---- Writing ----

  /** A walk over a map's keys. */
  method Walk<K(==), V>(m: map<K, V>) returns (order: seq<K>)
    ensures Enumerates(order, m.Keys)
  {
    order := [];
    var rest := m.Keys;
    while rest != {}
      invariant rest <= m.Keys && Enumerates(order, m.Keys - rest)
      decreases |rest|
    {
      var k :| k in rest;
      order := order + [k];
      rest := rest - {k};
    }
  }

  function EncodeAll<K, V>(encode: (K, V) -> Toml, m: map<K, V>, order: seq<K>): (s: seq<Toml>)
    requires forall k | k in order :: k in m
    ensures |s| == |order| && forall i :: 0 <= i < |order| ==> s[i] == encode(order[i], m[order[i]])
  {
    seq(|order|, i requires 0 <= i < |order| => encode(order[i], m[order[i]]))
  }

  /** The document as one table: the store's arrays in the maps' order, a binding array only when
      there is a binding, and everything else as it was. */
  function Render(d: Document, keys: seq<NamespaceKey>, addresses: seq<Address>): Content
    requires Enumerates(keys, d.settings.namespaces.Keys) && Enumerates(addresses, d.settings.bindings.Keys)
  {
    var table := d.rest[NAMESPACES := List(EncodeAll(EncodeNamespace, d.settings.namespaces, keys))];
    Content.Toml(if d.settings.bindings == map[] then table
                 else table[BINDINGS := List(EncodeAll(EncodeBinding, d.settings.bindings, addresses))])
  }

  function Restricted<K, V>(m: map<K, V>, order: seq<K>, n: nat): map<K, V>
    requires n <= |order|
  {
    map k | k in m && k in order[..n] :: m[k]
  }

  lemma OrderPrefix<K, V>(m: map<K, V>, order: seq<K>, n: nat)
    requires 0 < n <= |order| && Enumerates(order, m.Keys)
    ensures order[n - 1] in m && order[n - 1] !in Restricted(m, order, n - 1)
    ensures Restricted(m, order, n) == Restricted(m, order, n - 1)[order[n - 1] := m[order[n - 1]]]
  {
    assert order[..n] == order[..n - 1] + [order[n - 1]];
  }

  lemma OrderAll<K, V>(m: map<K, V>, order: seq<K>)
    requires Enumerates(order, m.Keys)
    ensures Restricted(m, order, |order|) == m && forall k | k in order :: k in m
  {
    assert order[..|order|] == order;
  }

  lemma {:induction false} GatherEncoded<K, V>(encode: (K, V) -> Toml, decode: Toml -> Option<(K, V)>, m: map<K, V>, order: seq<K>, n: nat)
    requires n <= |order| && Enumerates(order, m.Keys) && (forall k | k in order :: k in m)
    requires forall k | k in m :: decode(encode(k, m[k])) == Some((k, m[k]))
    ensures Gather(decode, EncodeAll(encode, m, order), n) == Some(Restricted(m, order, n))
  {
    hide Enumerates;
    if n == 0 {
      assert Restricted(m, order, 0) == map[];
    } else {
      GatherEncoded(encode, decode, m, order, n - 1);
      OrderPrefix(m, order, n);
      hide Restricted;
      var k := order[n - 1];
      assert decode(EncodeAll(encode, m, order)[n - 1]) == Some((k, m[k]));
    }
  }

  lemma GatherAllEncoded<K, V>(encode: (K, V) -> Toml, decode: Toml -> Option<(K, V)>, m: map<K, V>, order: seq<K>)
    requires Enumerates(order, m.Keys) && forall k | k in m :: decode(encode(k, m[k])) == Some((k, m[k]))
    ensures Gather(decode, EncodeAll(encode, m, order), |order|) == Some(m)
  {
    OrderAll(m, order);
    hide Enumerates;
    GatherEncoded(encode, decode, m, order, |order|);
  }

  predicate WellFormed(d: Document) {
    NAMESPACES !in d.rest && BINDINGS !in d.rest && LOCAL_NAMESPACE in d.settings.namespaces
  }

  /** Every document read is well formed. */
  lemma ParsedIsWellFormed(content: Content)
    ensures Parse(content).Ok? ==> WellFormed(Parse(content).value)
  {
    hide Gather, DecodeNamespace, DecodeBinding;
  }

  lemma NamespacesRead(namespaces: map<NamespaceKey, Mount>, keys: seq<NamespaceKey>)
    requires Enumerates(keys, namespaces.Keys)
    ensures Gather(DecodeNamespace, EncodeAll(EncodeNamespace, namespaces, keys), |keys|) == Some(namespaces)
  {
    forall k | k in namespaces
      ensures DecodeNamespace(EncodeNamespace(k, namespaces[k])) == Some((k, namespaces[k]))
    {
      NamespaceRecord(k, namespaces[k]);
    }
    hide DecodeNamespace, EncodeNamespace, Enumerates;
    GatherAllEncoded(EncodeNamespace, DecodeNamespace, namespaces, keys);
  }

  lemma BindingsRead(bindings: map<Address, Locator>, addresses: seq<Address>)
    requires Enumerates(addresses, bindings.Keys)
    ensures Gather(DecodeBinding, EncodeAll(EncodeBinding, bindings, addresses), |addresses|) == Some(bindings)
  {
    forall a | a in bindings
      ensures DecodeBinding(EncodeBinding(a, bindings[a])) == Some((a, bindings[a]))
    {
      BindingRecord(a, bindings[a]);
    }
    hide DecodeBinding, EncodeBinding, Enumerates;
    GatherAllEncoded(EncodeBinding, DecodeBinding, bindings, addresses);
  }

  /** Reading what was rendered gives the document back, in whatever order its maps were walked, and
      every key the store does not own is in the file as it was. */
  lemma RoundTrip(d: Document, keys: seq<NamespaceKey>, addresses: seq<Address>)
    requires WellFormed(d) && Enumerates(keys, d.settings.namespaces.Keys) && Enumerates(addresses, d.settings.bindings.Keys)
    ensures Parse(Render(d, keys, addresses)) == Ok(d)
    ensures Render(d, keys, addresses).table - {NAMESPACES, BINDINGS} == d.rest
  {
    var s := d.settings;
    var namespaces, bindings := EncodeAll(EncodeNamespace, s.namespaces, keys), EncodeAll(EncodeBinding, s.bindings, addresses);
    var table := Render(d, keys, addresses).table;
    RenderedTable(d, keys, addresses);
    NamespacesRead(s.namespaces, keys);
    BindingsRead(s.bindings, addresses);
    hide DecodeNamespace, EncodeNamespace, DecodeBinding, EncodeBinding, Enumerates, Gather, EncodeAll, Render, ParseName, ParseScopeName;
    TableParses(table, s, namespaces, bindings);
  }

  lemma TableParses(table: map<string, Toml>, s: Settings, namespaces: seq<Toml>, bindings: seq<Toml>)
    requires LOCAL_NAMESPACE in s.namespaces
    requires Records(table, NAMESPACES) == Some(namespaces) && Gather(DecodeNamespace, namespaces, |namespaces|) == Some(s.namespaces)
    requires Records(table, BINDINGS) == (if s.bindings == map[] then Some([]) else Some(bindings))
    requires Gather(DecodeBinding, bindings, |bindings|) == Some(s.bindings)
    ensures ParseNamespaces(table) == Some(s.namespaces) && ParseBindings(table) == Some(s.bindings)
  {
    assert Gather(DecodeBinding, [], 0) == Some(map[]);
    hide DecodeNamespace, DecodeBinding, Gather, Records;
  }

  lemma RenderedTable(d: Document, keys: seq<NamespaceKey>, addresses: seq<Address>)
    requires WellFormed(d) && Enumerates(keys, d.settings.namespaces.Keys) && Enumerates(addresses, d.settings.bindings.Keys)
    ensures var table := Render(d, keys, addresses).table;
            && Records(table, NAMESPACES) == Some(EncodeAll(EncodeNamespace, d.settings.namespaces, keys))
            && Records(table, BINDINGS) == (if d.settings.bindings == map[] then Some([]) else Some(EncodeAll(EncodeBinding, d.settings.bindings, addresses)))
            && table - {NAMESPACES, BINDINGS} == d.rest
  {
    hide EncodeNamespace, EncodeBinding, Enumerates, EncodeAll, ParseName, ParseScopeName;
    var table := Render(d, keys, addresses).table;
    assert NAMESPACES != BINDINGS;
    assert table - {NAMESPACES, BINDINGS} == d.rest;
  }

  // ---- Changes ----

  /** What each of the store's changes makes of the loaded document. */
  function ChangedDocument(d: Document, change: Change): Result<Document, StorageError> {
    var Settings(namespaces, bindings) := d.settings;
    match change
    case InsertNamespace(key, mount) =>
      if key in namespaces then Err(Conflict)
      else Ok(Document(d.rest, Settings(namespaces[key := mount], bindings)))
    case RemoveNamespace(key) =>
      if key == LOCAL_NAMESPACE then Err(Conflict)
      else if key in namespaces then Ok(Document(d.rest, Settings(namespaces - {key}, bindings)))
      else Err(NotFound)
    case SetMount(key, mount) =>
      if key in namespaces then Ok(Document(d.rest, Settings(namespaces[key := Some(mount)], bindings)))
      else Err(NotFound)
    case InsertBinding(address, locator) =>
      if address in bindings then Err(Conflict)
      else Ok(Document(d.rest, Settings(namespaces, bindings[address := locator])))
    case RemoveBinding(address) =>
      if address in bindings then Ok(Document(d.rest, Settings(namespaces, bindings - {address})))
      else Err(NotFound)
  }

  lemma ChangesKeepForm(d: Document, change: Change)
    requires WellFormed(d) && ChangedDocument(d, change).Ok?
    ensures WellFormed(ChangedDocument(d, change).value) && ChangedDocument(d, change).value.rest == d.rest
  {
  }
}
