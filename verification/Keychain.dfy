/** The keychain backend: one entry per address in a keychain any call to which may fail without
    effect, proved against the plain map of module Port. */
module Keychain {
  import opened Basics
  import opened Names
  import opened Port
  import opened AddressCodecs

  datatype EntryKey = EntryKey(service: string, user: string)

  type Entries = map<EntryKey, string>

  // ---- The stored form ----

  const FORMAT: char := 1 as char
  const HEADER: nat := 17

  /** `Uuid::hyphenated`: the hexadecimal digits in groups of 8, 4, 4, 4 and 12. */
  function Hyphenated(id: Uuid): Version {
    var h := Hex(id);
    h[..8] + "-" + h[8..12] + "-" + h[12..16] + "-" + h[16..20] + "-" + h[20..]
  }

  /** Two identifiers never share a version text. */
  lemma HyphenatedInjective(a: Uuid, b: Uuid)
    requires Bytes(a) && Bytes(b) && Hyphenated(a) == Hyphenated(b)
    ensures a == b
  {
    var g, h := Hex(a), Hex(b);
    var s, t := Hyphenated(a), Hyphenated(b);
    assert g[..8] == s[..8] == t[..8] == h[..8];
    assert g[8..12] == s[9..13] == t[9..13] == h[8..12];
    assert g[12..16] == s[14..18] == t[14..18] == h[12..16];
    assert g[16..20] == s[19..23] == t[19..23] == h[16..20];
    assert g[20..] == s[24..] == t[24..] == h[20..];
    assert g == g[..8] + g[8..12] + g[12..16] + g[16..20] + g[20..];
    assert h == h[..8] + h[8..12] + h[12..16] + h[16..20] + h[20..];
    HexInjective(a, b);
  }

  /** The text form of a UUID (section 4 of RFC 9562): its 32 digits with four hyphens. */
  lemma HyphenatedForm(id: Uuid)
    ensures var t, h := Hyphenated(id), Hex(id);
            && |t| == 36 && t[8] == '-' && t[13] == '-' && t[18] == '-' && t[23] == '-'
            && t[..8] == h[..8] && t[9..13] == h[8..12] && t[14..18] == h[12..16] && t[19..23] == h[16..20] && t[24..] == h[20..]
  {
  }

  function Blob(id: Uuid, value: SecretValue): string {
    [FORMAT] + id + value
  }

  /** The version and value of an entry; another layout is a backend fault. */
  function OpenBlob(blob: string): Result<(Version, string), StorageError> {
    if |blob| < HEADER || blob[0] != FORMAT then Err(Unavailable)
    else Ok((Hyphenated(blob[1..HEADER]), blob[HEADER..]))
  }

  /** An entry opens exactly when it has a format byte of one and a whole identifier; the rest of it is
      the value. */
  lemma OpenBlobIff(blob: string)
    ensures OpenBlob(blob).Ok? <==> |blob| >= 17 && blob[0] as int == 1
    ensures OpenBlob(blob).Ok? ==> OpenBlob(blob).value == (Hyphenated(blob[1..17]), blob[17..])
    ensures OpenBlob(blob).Err? ==> OpenBlob(blob).error == Unavailable
  {
  }

  lemma OpensAsSealed(id: Uuid, value: SecretValue)
    ensures OpenBlob(Blob(id, value)) == Ok((Hyphenated(id), value))
  {
    assert Blob(id, value)[1..HEADER] == id && Blob(id, value)[HEADER..] == value;
  }

  // ---- The map an entry table holds ----

  function KeyAt(service: string, a: Address): EntryKey {
    EntryKey(service, EntryUser(a))
  }

  predicate Ours(service: string, k: EntryKey) {
    k.service == service && DecodeUser(k.user).Some?
  }

  /** Every entry of the service that names an address was stored by this backend. */
  predicate Kept(entries: Entries, service: string) {
    forall k | k in entries && Ours(service, k) :: KeptEntry(entries[k])
  }

  predicate KeptEntry(blob: string) {
    OpenBlob(blob).Ok? && |OpenBlob(blob).value.1| <= MAX_VALUE_BYTES
  }

  function StoredOf(blob: string): Stored {
    match OpenBlob(blob)
    case Ok((version, value)) => Stored(if |value| <= MAX_VALUE_BYTES then value else "", version)
    case Err(_) => Stored("", "")
  }

  function Keys(entries: Entries, service: string): set<EntryKey> {
    set k | k in entries && Ours(service, k)
  }

  /** The addresses the service's entries name, each with what its entry holds. */
  ghost function VaultOf(entries: Entries, service: string): (v: Vault)
    ensures forall a :: a in v <==> KeyAt(service, a) in entries
    ensures forall a | a in v :: v[a] == StoredOf(entries[KeyAt(service, a)])
  {
    var addresses := set k | k in Keys(entries, service) :: DecodeUser(k.user).value;
    AddressesAre(entries, service);
    map a | a in addresses :: StoredOf(entries[KeyAt(service, a)])
  }

  lemma AddressesAre(entries: Entries, service: string)
    ensures forall a :: a in (set k | k in Keys(entries, service) :: DecodeUser(k.user).value) <==> KeyAt(service, a) in entries
  {
    forall a: Address
      ensures a in (set k | k in Keys(entries, service) :: DecodeUser(k.user).value) <==> KeyAt(service, a) in entries
    {
      DecodeUserIff(EntryUser(a), a);
      hide DecodeUser, EntryUser;
      if KeyAt(service, a) in entries {
        assert KeyAt(service, a) in Keys(entries, service);
      }
      if a in (set k | k in Keys(entries, service) :: DecodeUser(k.user).value) {
        var k :| k in Keys(entries, service) && DecodeUser(k.user).value == a;
        DecodeUserIff(k.user, a);
      }
    }
  }

  lemma KeysDiffer(service: string, a: Address, b: Address)
    ensures KeyAt(service, a) == KeyAt(service, b) <==> a == b
  {
    hide EntryUser;
    if EntryUser(a) == EntryUser(b) {
      EntryUserInjective(a, b);
    }
  }

  lemma KeyIsOurs(service: string, a: Address)
    ensures Ours(service, KeyAt(service, a))
  {
    DecodeUserIff(EntryUser(a), a);
  }

  lemma VaultSet(entries: Entries, service: string, a: Address, blob: string)
    ensures VaultOf(entries[KeyAt(service, a) := blob], service) == VaultOf(entries, service)[a := StoredOf(blob)]
  {
    var after := entries[KeyAt(service, a) := blob];
    hide StoredOf, EntryUser, VaultOf;
    forall b: Address
      ensures b in VaultOf(after, service) <==> b == a || b in VaultOf(entries, service)
      ensures b in VaultOf(after, service) ==> VaultOf(after, service)[b] == VaultOf(entries, service)[a := StoredOf(blob)][b]
    {
      KeysDiffer(service, a, b);
    }
  }

  lemma VaultRemove(entries: Entries, service: string, a: Address)
    ensures VaultOf(entries - {KeyAt(service, a)}, service) == VaultOf(entries, service) - {a}
  {
    var after := entries - {KeyAt(service, a)};
    hide StoredOf, EntryUser, VaultOf;
    forall b: Address
      ensures b in VaultOf(after, service) <==> b != a && b in VaultOf(entries, service)
      ensures b in VaultOf(after, service) ==> VaultOf(after, service)[b] == VaultOf(entries, service)[b]
    {
      KeysDiffer(service, a, b);
    }
  }

  // ---- The keychain ----

  datatype KeyringError = NoEntry | OtherError

  function Failure(error: KeyringError): StorageError {
    if error.NoEntry? then NotFound else Unavailable
  }

  /** An entry table whose every call may fail, changing nothing; `faults` counts the failures. */
  class Credentials {
    var entries: Entries
    var faults: nat

    constructor ()
      ensures entries == map[] && faults == 0
    {
      entries, faults := map[], 0;
    }

    /** `CredentialStore::build`: a handle, the table untouched. */
    method Build(service: string, user: string) returns (r: Result<EntryKey, KeyringError>)
      modifies this`faults
      ensures if faults == old(faults) then r == Ok(EntryKey(service, user)) else r == Err(OtherError) && faults == old(faults) + 1
    {
      if * {
        faults := faults + 1;
        return Err(OtherError);
      }
      return Ok(EntryKey(service, user));
    }

    method GetSecret(k: EntryKey) returns (r: Result<string, KeyringError>)
      modifies this`faults
      ensures if faults == old(faults) then r == (if k in entries then Ok(entries[k]) else Err(NoEntry))
              else r == Err(OtherError) && faults == old(faults) + 1
    {
      if * {
        faults := faults + 1;
        return Err(OtherError);
      }
      return if k in entries then Ok(entries[k]) else Err(NoEntry);
    }

    method SetSecret(k: EntryKey, blob: string) returns (r: Result<(), KeyringError>)
      modifies this`entries, this`faults
      ensures if faults == old(faults) then r == Ok(()) && entries == old(entries)[k := blob]
              else r == Err(OtherError) && entries == old(entries) && faults == old(faults) + 1
    {
      if * {
        faults := faults + 1;
        return Err(OtherError);
      }
      entries := entries[k := blob];
      return Ok(());
    }

    method DeleteCredential(k: EntryKey) returns (r: Result<(), KeyringError>)
      modifies this`entries, this`faults
      ensures if faults == old(faults) then entries == old(entries) - {k} && r == (if k in old(entries) then Ok(()) else Err(NoEntry))
              else r == Err(OtherError) && entries == old(entries) && faults == old(faults) + 1
    {
      if * {
        faults := faults + 1;
        return Err(OtherError);
      }
      if k !in entries {
        assert entries - {k} == entries;
        return Err(NoEntry);
      }
      entries := entries - {k};
      return Ok(());
    }

    /** A search by service gives `found`: every entry of exactly that service, each once, and maybe
        others, deleted ones included. */
    method Search(service: string, found: seq<EntryKey>) returns (r: Result<seq<EntryKey>, KeyringError>)
      requires Finds(entries, service, found)
      modifies this`faults
      ensures if faults == old(faults) then r == Ok(found) else r == Err(OtherError) && faults == old(faults) + 1
    {
      if * {
        faults := faults + 1;
        return Err(OtherError);
      }
      return Ok(found);
    }
  }

  predicate Finds(entries: Entries, service: string, found: seq<EntryKey>) {
    && (forall k | k in entries && k.service == service :: k in found)
    && (forall i, j :: 0 <= i < j < |found| ==> found[i] != found[j])
  }

  // ---- Listing, as a fold of what the search found ----

  /** The row an entry of the search gives: none for another service, no address, another scope or
      no secret. */
  function RowFor(entries: Entries, service: string, scope: Scope, k: EntryKey): Option<Listed> {
    if k.service != service then None
    else
      match DecodeUser(k.user)
      case None => None
      case Some(a) =>
        if a.scope != scope || k !in entries || OpenBlob(entries[k]).Err? then None
        else Some(Listed(a, Some(OpenBlob(entries[k]).value.0)))
  }

  function Rows(entries: Entries, service: string, scope: Scope): EntryKey -> Option<Listed> {
    (k: EntryKey) => RowFor(entries, service, scope, k)
  }

  /** A row's entry is the one its address is stored under. */
  lemma RowKey(entries: Entries, service: string, scope: Scope, k: EntryKey)
    requires RowFor(entries, service, scope, k).Some?
    ensures var row := RowFor(entries, service, scope, k).value;
            && k == KeyAt(service, row.address) && k in entries && row.address.scope == scope
            && row.version == Some(StoredOf(entries[k]).version)
  {
    DecodeUserIff(k.user, RowFor(entries, service, scope, k).value.address);
  }

  lemma EntriesApart(entries: Entries, service: string, scope: Scope, found: seq<EntryKey>)
    requires Finds(entries, service, found)
    ensures NamesApart(Rows(entries, service, scope), found)
  {
    hide RowFor, KeyAt, StoredOf;
    forall i, j | 0 <= i < j < |found| && RowFor(entries, service, scope, found[i]).Some? && RowFor(entries, service, scope, found[j]).Some?
      ensures RowFor(entries, service, scope, found[i]).value.address.name != RowFor(entries, service, scope, found[j]).value.address.name
    {
      RowKey(entries, service, scope, found[i]);
      RowKey(entries, service, scope, found[j]);
    }
  }

  /** Sorted, the rows are exactly the scope's part of the map. */
  lemma RowsListVault(entries: Entries, service: string, scope: Scope, found: seq<EntryKey>)
    requires Finds(entries, service, found) && Kept(entries, service)
    ensures Lists(VaultOf(entries, service), scope, SortRows(RowsOf(Rows(entries, service, scope), found, |found|)))
  {
    var v := VaultOf(entries, service);
    EntriesApart(entries, service, scope, found);
    hide RowFor, VaultOf, Kept, StoredOf, EntryUser, NamesApart;
    forall j | 0 <= j < |found| && Rows(entries, service, scope)(found[j]).Some?
      ensures RowOf(v, scope, Rows(entries, service, scope)(found[j]).value)
    {
      RowKey(entries, service, scope, found[j]);
    }
    forall a | a in v && a.scope == scope
      ensures Reaches(Rows(entries, service, scope), found, a)
    {
      KeptHasRow(entries, service, a);
      var j :| 0 <= j < |found| && found[j] == KeyAt(service, a);
      assert Rows(entries, service, scope)(found[j]).Some?;
    }
    RowsList(v, scope, Rows(entries, service, scope), found);
  }

  lemma KeptHasRow(entries: Entries, service: string, a: Address)
    requires Kept(entries, service) && KeyAt(service, a) in entries
    ensures RowFor(entries, service, a.scope, KeyAt(service, a)).Some?
    ensures RowFor(entries, service, a.scope, KeyAt(service, a)).value.address == a
  {
    DecodeUserIff(EntryUser(a), a);
    KeyIsOurs(service, a);
    hide DecodeUser, OpenBlob;
    assert KeptEntry(entries[KeyAt(service, a)]);
  }

  /** An entry of the scope in another layout. */
  predicate Bad(entries: Entries, service: string, scope: Scope, k: EntryKey) {
    && k.service == service && DecodeUser(k.user).Some? && DecodeUser(k.user).value.scope == scope
    && k in entries && OpenBlob(entries[k]).Err?
  }

  /** A listing with no fault: refused at an entry in another layout, else its rows in order. */
  function ListEntries(entries: Entries, service: string, scope: Scope, found: seq<EntryKey>): Result<seq<Listed>, StorageError> {
    if exists j :: 0 <= j < |found| && Bad(entries, service, scope, found[j]) then Err(Unavailable)
    else Ok(SortRows(RowsOf(Rows(entries, service, scope), found, |found|)))
  }

  lemma KeptHasNoBad(entries: Entries, service: string, scope: Scope, found: seq<EntryKey>)
    requires Kept(entries, service)
    ensures forall j :: 0 <= j < |found| ==> !Bad(entries, service, scope, found[j])
  {
    hide DecodeUser, OpenBlob;
    forall j | 0 <= j < |found|
      ensures !Bad(entries, service, scope, found[j])
    {
      assert found[j] in entries && Ours(service, found[j]) ==> KeptEntry(entries[found[j]]);
    }
  }

  lemma BadIsUnavailable(blob: string)
    ensures OpenBlob(blob).Err? ==> OpenBlob(blob) == Err(Unavailable)
  {
  }

  /** A read with no fault. */
  function ReadEntry(entries: Entries, k: EntryKey): Result<Revealed, StorageError> {
    if k !in entries then Err(NotFound)
    else
      match OpenBlob(entries[k])
      case Err(error) => Err(error)
      case Ok((version, value)) => if |value| > MAX_VALUE_BYTES then Err(TooLarge) else Ok(Revealed(value, Some(version)))
  }

  /** Over entries this backend stored, a read is the map's. */
  lemma ReadsTheMap(entries: Entries, service: string, a: Address)
    requires Kept(entries, service)
    ensures ReadEntry(entries, KeyAt(service, a)) == ReadOf(VaultOf(entries, service), a)
  {
    KeyIsOurs(service, a);
    hide EntryUser, DecodeUser, VaultOf, OpenBlob;
    if KeyAt(service, a) in entries {
      assert KeptEntry(entries[KeyAt(service, a)]);
    }
  }

  // ---- The backend ----

  class KeychainBackend {
    const service: string
    const store: Credentials

    constructor (store: Credentials, service: string)
      ensures this.store == store && this.service == service
    {
      this.store := store;
      this.service := service;
    }

    ghost predicate Valid()
      reads store
    {
      Kept(store.entries, service)
    }

    ghost function Vault(): Vault
      reads store
    {
      VaultOf(store.entries, service)
    }

    method Read(target: Target) returns (r: Result<Revealed, StorageError>)
      modifies store`faults
      ensures r == if store.faults == old(store.faults) then ReadEntry(store.entries, KeyAt(service, target.address)) else Err(Unavailable)
      ensures store.faults >= old(store.faults)
    {
      hide EntryUser, DecodeUser, OpenBlob;
      var entry := store.Build(service, EntryUser(target.address));
      if entry.Err? {
        return Err(Failure(entry.error));
      }
      var blob := store.GetSecret(entry.value);
      if blob.Err? {
        return Err(Failure(blob.error));
      }
      var found := OpenBlob(blob.value);
      if found.Err? {
        return Err(found.error);
      }
      if |found.value.1| > MAX_VALUE_BYTES {
        return Err(TooLarge);
      }
      return Ok(Revealed(found.value.1, Some(found.value.0)));
    }

    /** A write that is answered Ok gives the address the value under a version no entry had, when
        the identifier is new; a failed one changed nothing. */
    method Write(target: Target, value: SecretValue, id: Uuid) returns (r: Result<Written, StorageError>)
      modifies store
      ensures old(Valid()) ==> Valid()
      ensures if store.faults == old(store.faults) then
                && Vault() == old(Vault())[target.address := Stored(value, Hyphenated(id))]
                && r == Ok(WrittenAt(old(Vault()), target.address, Hyphenated(id)))
                && store.entries == old(store.entries)[KeyAt(service, target.address) := Blob(id, value)]
              else r == Err(Unavailable) && store.entries == old(store.entries)
    {
      hide VaultOf, EntryUser, DecodeUser, Kept, StoredOf, OpenBlob;
      var entry := store.Build(service, EntryUser(target.address));
      if entry.Err? {
        return Err(Failure(entry.error));
      }
      var existing := store.GetSecret(entry.value);
      if existing.Err? && !existing.error.NoEntry? {
        return Err(Failure(existing.error));
      }
      if Valid() {
        KeptAfterSet(store.entries, service, target.address, id, value);
      }
      VaultSet(store.entries, service, target.address, Blob(id, value));
      StoredBlob(id, value);
      var stored := store.SetSecret(entry.value, Blob(id, value));
      if stored.Err? {
        return Err(Failure(stored.error));
      }
      return Ok(if existing.Ok? then Replaced(Some(Hyphenated(id))) else Created(Some(Hyphenated(id))));
    }

    method Delete(target: Target) returns (r: Result<(), StorageError>)
      modifies store
      ensures old(Valid()) ==> Valid()
      ensures if store.faults == old(store.faults) then
                && Deletes(old(Vault()), target.address, Vault(), r)
                && store.entries == old(store.entries) - {KeyAt(service, target.address)}
              else r == Err(Unavailable) && store.entries == old(store.entries)
    {
      hide VaultOf, EntryUser, DecodeUser, StoredOf, OpenBlob;
      VaultRemove(store.entries, service, target.address);
      var entry := store.Build(service, EntryUser(target.address));
      if entry.Err? {
        return Err(Failure(entry.error));
      }
      var deleted := store.DeleteCredential(entry.value);
      if deleted.Err? {
        return Err(Failure(deleted.error));
      }
      return Ok(());
    }

    /** Copy, then delete, then on a failed delete take the copy back. Ok means the entry moved as it
        was; any error leaves the value under its old name; a second copy can stay only when the
        delete and its undo both failed; no other entry changes. With no fault it is the map's
        rename. */
    method Rename(target: Target, newName: SecretName) returns (r: Result<(), StorageError>)
      modifies store
      ensures old(Valid()) ==> Valid()
      ensures var from, to := KeyAt(service, target.address), KeyAt(service, Address(target.address.scope, newName));
              var before := old(store.entries);
              match r
              case Ok(_) => from in before && to !in before && store.entries == (before - {from})[to := before[from]]
              case Err(_) =>
                || store.entries == before
                || (&& from in before && to !in before && store.entries == before[to := before[from]]
                    && store.faults >= old(store.faults) + 2 && r == Err(Unavailable))
      ensures if store.faults == old(store.faults)
              then Renames(old(Vault()), target.address, Address(target.address.scope, newName), Vault(), r)
              else r == Err(Unavailable)
    {
      hide VaultOf, EntryUser, DecodeUser, Kept, StoredOf, OpenBlob;
      ghost var before := store.entries;
      var from, to := target.address, Address(target.address.scope, newName);
      var source := store.Build(service, EntryUser(from));
      if source.Err? {
        return Err(Failure(source.error));
      }
      var blob := store.GetSecret(source.value);
      if blob.Err? {
        return Err(Failure(blob.error));
      }
      var destination := store.Build(service, EntryUser(to));
      if destination.Err? {
        return Err(Failure(destination.error));
      }
      var taken := store.GetSecret(destination.value);
      if taken.Ok? {
        return Err(Conflict);
      }
      if !taken.error.NoEntry? {
        return Err(Failure(taken.error));
      }
      MovedEntries(before, service, from, to);
      if Valid() {
        MovedKept(before, service, from, to);
      }
      var copied := store.SetSecret(destination.value, blob.value);
      if copied.Err? {
        return Err(Failure(copied.error));
      }
      var deleted := store.DeleteCredential(source.value);
      if deleted.Err? {
        var undone := store.DeleteCredential(destination.value);
        assert before[destination.value := blob.value] - {destination.value} == before;
        return Err(Failure(deleted.error));
      }
      assert before[destination.value := blob.value] - {source.value} == (before - {source.value})[destination.value := blob.value];
      return Ok(());
    }

    /** Whatever the search brings up, an answered listing is exactly the scope's secrets, in order
        and each once. */
    method List(scope: Scope, found: seq<EntryKey>) returns (r: Result<seq<Listed>, StorageError>)
      requires Finds(store.entries, service, found)
      modifies store`faults
      ensures if store.faults == old(store.faults) then r == ListEntries(store.entries, service, scope, found) else r == Err(Unavailable)
      ensures Valid() && r.Ok? ==> Lists(Vault(), scope, r.value)
      ensures Valid() && store.faults == old(store.faults) ==> r.Ok?
    {
      hide VaultOf, EntryUser, DecodeUser, Kept, StoredOf, OpenBlob, Finds, Lists, SortRows;
      ghost var entries := store.entries;
      if Valid() {
        RowsListVault(entries, service, scope, found);
        KeptHasNoBad(entries, service, scope, found);
      }
      var entriesFound := store.Search(service, found);
      if entriesFound.Err? {
        return Err(Failure(entriesFound.error));
      }
      var listed: seq<Listed> := [];
      for i := 0 to |found|
        invariant store.entries == entries && store.faults == old(store.faults)
        invariant listed == RowsOf(Rows(entries, service, scope), found, i)
        invariant forall j :: 0 <= j < i ==> !Bad(entries, service, scope, found[j])
      {
        var k := found[i];
        if k.service != service {
          continue;
        }
        var decoded := DecodeUser(k.user);
        if decoded.None? || decoded.value.scope != scope {
          continue;
        }
        var blob := store.GetSecret(k);
        if blob.Err? {
          if blob.error.NoEntry? {
            continue;
          }
          return Err(Failure(blob.error));
        }
        var entry := OpenBlob(blob.value);
        if entry.Err? {
          assert Bad(entries, service, scope, found[i]);
          BadIsUnavailable(blob.value);
          return Err(entry.error);
        }
        listed := listed + [Listed(decoded.value, Some(entry.value.0))];
      }
      return Ok(SortRows(listed));
    }
  }

  lemma StoredBlob(id: Uuid, value: SecretValue)
    ensures StoredOf(Blob(id, value)) == Stored(value, Hyphenated(id))
  {
    OpensAsSealed(id, value);
  }

  lemma KeptAfterSet(entries: Entries, service: string, a: Address, id: Uuid, value: SecretValue)
    requires Kept(entries, service)
    ensures Kept(entries[KeyAt(service, a) := Blob(id, value)], service)
  {
    OpensAsSealed(id, value);
    hide OpenBlob, EntryUser, DecodeUser;
  }

  lemma MovedKept(entries: Entries, service: string, from: Address, to: Address)
    requires Kept(entries, service) && KeyAt(service, from) in entries
    ensures var copied := entries[KeyAt(service, to) := entries[KeyAt(service, from)]];
            Kept(copied, service) && Kept(copied - {KeyAt(service, from)}, service)
  {
    KeyIsOurs(service, from);
    hide OpenBlob, EntryUser, DecodeUser, KeptEntry;
    assert KeptEntry(entries[KeyAt(service, from)]);
  }

  /** Moving an entry moves its address in the map. */
  lemma MovedEntries(entries: Entries, service: string, from: Address, to: Address)
    requires KeyAt(service, from) in entries && KeyAt(service, to) !in entries
    ensures var moved := entries[KeyAt(service, to) := entries[KeyAt(service, from)]] - {KeyAt(service, from)};
            VaultOf(moved, service) == Moved(VaultOf(entries, service), from, to)
  {
    var blob := entries[KeyAt(service, from)];
    hide OpenBlob, EntryUser, DecodeUser, VaultOf, StoredOf, KeptEntry, Kept;
    var v := VaultOf(entries, service);
    assert to !in v && from in v && v[from] == StoredOf(blob);
    VaultSet(entries, service, to, blob);
    VaultRemove(entries[KeyAt(service, to) := blob], service, from);
    MovedMap(v, from, to);
  }

  lemma MovedMap(v: Vault, from: Address, to: Address)
    requires from in v && to !in v
    ensures v[to := v[from]] - {from} == Moved(v, from, to)
  {
  }

  /** So a rewrite under a new identifier always changes the version. */
  lemma NewVersionIsNew(id: Uuid, value: SecretValue, was: Uuid, old': SecretValue)
    requires Bytes(id) && Bytes(was) && id != was
    ensures StoredOf(Blob(id, value)).version != StoredOf(Blob(was, old')).version
  {
    StoredBlob(id, value);
    StoredBlob(was, old');
    if Hyphenated(id) == Hyphenated(was) {
      HyphenatedInjective(id, was);
    }
  }
}
