/** The two text forms of an address: a keychain entry's user and a custody reference. Each coding
    and its decoding undo each other on exactly the texts the other produces. */
module AddressCodecs {
  import opened Basics
  import opened Core
  import opened Names

  /** `str::split_once`. */
  function SplitOnce(s: string, sep: char): Option<(string, string)> {
    var i := FirstAt(s, sep);
    if i == |s| then None else Some((s[..i], s[i + 1..]))
  }

  lemma SplitOnceIff(s: string, sep: char, a: string, b: string)
    ensures SplitOnce(s, sep) == Some((a, b)) <==> s == a + [sep] + b && !Contains(a, sep)
  {
    var i := FirstAt(s, sep);
    if i < |s| {
      assert s == s[..i] + [sep] + s[i + 1..];
      assert !Contains(s[..i], sep);
    }
    if s == a + [sep] + b && !Contains(a, sep) {
      assert s[|a|] == sep;
      assert i < |s|;
      FirstSeparator(s[..i], a, s[i + 1..], b, sep);
    }
  }

  // ---- The keychain's `tenant/namespace/user/name` ----

  function EntryUser(a: Address): string {
    a.scope.tenant + ['/'] + (a.scope.namespace + ['/'] + (a.scope.user + ['/'] + a.name))
  }

  /** `splitn(4, '/')` and a parse of each part. */
  function DecodeUser(user: string): Option<Address> {
    match SplitOnce(user, '/')
    case None => None
    case Some((tenant, afterTenant)) =>
      match SplitOnce(afterTenant, '/')
      case None => None
      case Some((namespace, afterNamespace)) =>
        match SplitOnce(afterNamespace, '/')
        case None => None
        case Some((u, name)) =>
          if ParseScopeName(tenant).Ok? && ParseScopeName(namespace).Ok? && ParseScopeName(u).Ok? && ParseName(name).Ok?
          then Some(Address(Scope(tenant, namespace, u), name))
          else None
  }

  /** A text decodes to an address exactly when it is that address's own text. */
  lemma DecodeUserIff(user: string, a: Address)
    ensures DecodeUser(user) == Some(a) <==> user == EntryUser(a)
  {
    hide FirstAt, SplitOnce, ParseName, ParseScopeName;
    var s := a.scope;
    if user == EntryUser(a) {
      ScopeNamePlain(s.tenant);
      ScopeNamePlain(s.namespace);
      ScopeNamePlain(s.user);
      SplitOnceIff(user, '/', s.tenant, s.namespace + ['/'] + (s.user + ['/'] + a.name));
      SplitOnceIff(s.namespace + ['/'] + (s.user + ['/'] + a.name), '/', s.namespace, s.user + ['/'] + a.name);
      SplitOnceIff(s.user + ['/'] + a.name, '/', s.user, a.name);
    }
    if DecodeUser(user) == Some(a) {
      var afterTenant := SplitOnce(user, '/').value.1;
      var afterNamespace := SplitOnce(afterTenant, '/').value.1;
      SplitOnceIff(user, '/', s.tenant, afterTenant);
      SplitOnceIff(afterTenant, '/', s.namespace, afterNamespace);
      SplitOnceIff(afterNamespace, '/', s.user, a.name);
    }
  }

  /** So two addresses never share an entry. */
  lemma EntryUserInjective(a: Address, b: Address)
    requires EntryUser(a) == EntryUser(b)
    ensures a == b
  {
    DecodeUserIff(EntryUser(a), a);
    DecodeUserIff(EntryUser(a), b);
  }

  // ---- Custody's `{tenant, namespace, key = user/name}` ----

  function Reference(a: Address): SecretRef {
    SecretRef(a.scope.tenant, a.scope.namespace, a.scope.user + ['/'] + a.name)
  }

  function AddressOf(scope: Scope, r: SecretRef): Option<Address> {
    if r.tenant != scope.tenant || r.namespace != scope.namespace then None
    else
      match SplitOnce(r.key, '/')
      case None => None
      case Some((user, name)) =>
        if user != scope.user || ParseName(name).Err? then None else Some(Address(scope, name))
  }

  /** A reference holds an address of the scope exactly when it is that address's reference. */
  lemma AddressOfIff(scope: Scope, r: SecretRef, a: Address)
    ensures AddressOf(scope, r) == Some(a) <==> r == Reference(a) && a.scope == scope
  {
    hide FirstAt, SplitOnce, ParseName, ParseScopeName;
    if r == Reference(a) && a.scope == scope {
      ScopeNamePlain(scope.user);
      SplitOnceIff(r.key, '/', scope.user, a.name);
    }
    if AddressOf(scope, r) == Some(a) {
      SplitOnceIff(r.key, '/', scope.user, a.name);
    }
  }

  /** Addresses of different scopes, or of one scope and different names, have different references. */
  lemma ReferenceInjective(a: Address, b: Address)
    requires Reference(a) == Reference(b)
    ensures a == b
  {
    hide ParseName, ParseScopeName;
    ScopeNamePlain(a.scope.user);
    ScopeNamePlain(b.scope.user);
    FirstSeparator(a.scope.user, b.scope.user, a.name, b.name, '/');
  }

  const MAX_KEY: nat := 193

  /** Custody accepts every address's reference: no part is malformed or over 255 bytes, and the key
      is at most 193 bytes. */
  lemma ReferenceAccepted(a: Address)
    ensures ValidateRef(Reference(a)) == Ok(()) && |Reference(a).key| <= MAX_KEY
  {
    hide ParseName, ParseScopeName;
    ScopeNamePlain(a.scope.tenant);
    ScopeNamePlain(a.scope.namespace);
    ScopeNamePlain(a.scope.user);
    SecretNamePlain(a.name);
  }

  function Repeat(n: nat): (s: string)
    ensures |s| == n && forall i :: 0 <= i < n ==> s[i] == 'a'
  {
    seq(n, _ => 'a')
  }

  lemma TwoSegments(m: nat, n: nat)
    requires 1 <= m <= MAX_SEGMENT_BYTES && 1 <= n <= MAX_SEGMENT_BYTES && m + 1 + n <= MAX_NAME_BYTES
    ensures ParseName(Repeat(m) + ['/'] + Repeat(n)).Ok?
  {
    var first, last := Repeat(m), Repeat(n);
    var name := first + ['/'] + last;
    assert FirstAt(last, '/') == n;
    assert Split(last, '/') == [last];
    assert FirstAt(name, '/') == m by {
      assert name[m] == '/';
      assert forall i :: 0 <= i < m ==> name[i] == first[i];
    }
    assert name[..m] == first && name[m + 1..] == last;
    assert Split(name, '/') == [first] + [last];
    EachUnfolds(first, [last]);
    EachUnfolds(last, []);
    assert [last] + [] == [last];
  }

  /** And that bound is reached. */
  lemma LongestKey()
    ensures exists a: Address :: |Reference(a).key| == MAX_KEY
  {
    var user := Repeat(64);
    TwoSegments(64, 63);
    var a := Address(Scope(user, DEFAULT, user), user + ['/'] + Repeat(63));
    assert |Reference(a).key| == MAX_KEY;
  }
}
