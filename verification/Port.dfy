/** The storage port: its types, and the plain address-to-value map every backend is measured
    against. `RecordingBackend` is that map kept in memory. */
module Port {
  import opened Basics
  import opened Names

  datatype StorageError = NotFound | Denied | Unsupported | Unavailable | InvalidName | TooLarge | Conflict

  datatype Capability = CanRead | CanWrite | CanDelete | CanList

  datatype BackendKind = Keychain | Onepassword | Remote

  const ALL_CAPABILITIES: set<Capability> := {CanRead, CanWrite, CanDelete, CanList}

  /** A kind that can change what it holds can also list it. */
  function Capabilities(kind: BackendKind): (offers: set<Capability>)
    ensures CanRead in offers && (CanWrite in offers || CanDelete in offers <==> CanList in offers)
    ensures CanWrite in offers <==> kind != Onepassword
    ensures CanDelete in offers <==> kind != Onepassword
  {
    if kind.Onepassword? then {CanRead} else ALL_CAPABILITIES
  }

  datatype BackendRef = BackendRef(kind: BackendKind, name: ScopeName)

  const DEFAULT_MOUNT: BackendRef := BackendRef(Keychain, DEFAULT)

  const MAX_VALUE_BYTES: nat := 1024 * 1024

  type SecretValue = v: string | |v| <= MAX_VALUE_BYTES witness ""

  /** A value has at most 1 MiB, and may have that. */
  lemma LargestValue() returns (v: SecretValue)
    ensures |v| == 1048576 && forall other: SecretValue :: |other| <= 1048576
  {
    v := seq(1048576, _ => 'a');
  }

  type Locator = string
  type Version = string

  datatype Target = Target(address: Address, locator: Option<Locator>)

  datatype Revealed = Revealed(value: SecretValue, version: Option<Version>)

  datatype Written = Created(version: Option<Version>) | Replaced(version: Option<Version>)

  datatype Listed = Listed(address: Address, version: Option<Version>)

  // ---- The plain map ----

  datatype Stored = Stored(value: SecretValue, version: Version)

  type Vault = map<Address, Stored>

  function ReadOf(v: Vault, a: Address): Result<Revealed, StorageError> {
    if a in v then Ok(Revealed(v[a].value, Some(v[a].version))) else Err(NotFound)
  }

  function WrittenAt(v: Vault, a: Address, version: Version): Written {
    if a in v then Replaced(Some(version)) else Created(Some(version))
  }

  /** A delete takes the address out or finds nothing. */
  predicate Deletes(before: Vault, a: Address, after: Vault, answer: Result<(), StorageError>) {
    after == before - {a} && answer == if a in before then Ok(()) else Err(NotFound)
  }

  function Moved(v: Vault, from: Address, to: Address): Vault
    requires from in v
  {
    (v - {from})[to := v[from]]
  }

  /** A rename moves the value, whatever becomes of the version, or is refused: for a missing source,
      for a taken destination, either when both hold, and nothing changes. */
  predicate Renames(before: Vault, from: Address, to: Address, after: Vault, answer: Result<(), StorageError>) {
    match answer
    case Ok(_) =>
      && from in before && to !in before && to in after
      && after == (before - {from})[to := after[to]] && after[to].value == before[from].value
    case Err(NotFound) => from !in before && after == before
    case Err(Conflict) => to in before && after == before
    case Err(_) => false
  }

  /** In byte order of names, so no name twice. */
  predicate Ascending(rows: seq<Listed>) {
    forall i, j :: 0 <= i < j < |rows| ==> Before(rows[i].address.name, rows[j].address.name)
  }

  predicate Covers(rows: seq<Listed>, a: Address) {
    exists i :: 0 <= i < |rows| && rows[i].address == a
  }

  predicate RowOf(v: Vault, scope: Scope, row: Listed) {
    row.address.scope == scope && row.address in v && row.version == Some(v[row.address].version)
  }

  /** Exactly the scope's addresses with their versions, in order. */
  predicate Lists(v: Vault, scope: Scope, rows: seq<Listed>) {
    && Ascending(rows)
    && (forall i :: 0 <= i < |rows| ==> RowOf(v, scope, rows[i]))
    && (forall a | a in v && a.scope == scope :: Covers(rows, a))
  }

  /** Rows in strict order with the same members are the same rows. */
  lemma {:induction false} SameAscending(rows: seq<Listed>, others: seq<Listed>)
    requires Ascending(rows) && Ascending(others) && forall x :: x in rows <==> x in others
    ensures rows == others
  {
    hide Before;
    assert others == [] || others[0] in others;
    if rows != [] {
      assert rows[0] in others;
      var first := others[0];
      assert first in rows;
      if first != rows[0] {
        BeforeIsStrict(first.address.name, rows[0].address.name, first.address.name);
        BeforeIsStrict(first.address.name, first.address.name, "");
        assert false;
      }
      RestAscends(rows);
      RestAscends(others);
      SameAscending(rows[1..], others[1..]);
    }
  }

  lemma RestAscends(rows: seq<Listed>)
    requires Ascending(rows) && rows != []
    ensures Ascending(rows[1..]) && forall x :: x in rows[1..] <==> x in rows && x != rows[0]
  {
    BeforeIsStrict(rows[0].address.name, rows[0].address.name, "");
    hide Before;
  }

  lemma ListedOnce(v: Vault, scope: Scope, rows: seq<Listed>, x: Listed)
    requires Lists(v, scope, rows)
    ensures x in rows <==> x.address in v && x.address.scope == scope && x == Listed(x.address, Some(v[x.address].version))
  {
    hide Ascending;
    if x.address in v && x.address.scope == scope {
      var i :| 0 <= i < |rows| && rows[i].address == x.address;
      assert RowOf(v, scope, rows[i]);
    }
  }

  /** So there is one listing of a scope: the map's addresses in it and their versions, in order. */
  lemma ListsOneWay(v: Vault, scope: Scope, rows: seq<Listed>, others: seq<Listed>)
    requires Lists(v, scope, rows) && Lists(v, scope, others)
    ensures rows == others
  {
    forall x
      ensures x in rows <==> x in others
    {
      ListedOnce(v, scope, rows, x);
      ListedOnce(v, scope, others, x);
    }
    hide Ascending;
    SameAscending(rows, others);
  }

  /** What a rename leaves, address by address. */
  lemma RenamesAt(before: Vault, from: Address, to: Address, after: Vault, answer: Result<(), StorageError>, x: Address)
    requires Renames(before, from, to, after, answer)
    ensures answer.Ok? ==> from in before && to !in before && to in after && after[to].value == before[from].value
    ensures answer.Ok? && x == from ==> x !in after
    ensures answer.Err? || (x != from && x != to) ==> (x in after <==> x in before) && (x in before ==> after[x] == before[x])
    ensures answer.Err? ==> (answer.error == NotFound && from !in before) || (answer.error == Conflict && to in before)
  {
  }

  /** No address is listed twice. */
  lemma ListsOnce(v: Vault, scope: Scope, rows: seq<Listed>, i: nat, j: nat)
    requires Lists(v, scope, rows) && i < j < |rows|
    ensures rows[i].address != rows[j].address
  {
    BeforeIsStrict(rows[i].address.name, rows[i].address.name, "");
  }

  // ---- `listed.sort()` ----

  function InsertRow(rows: seq<Listed>, row: Listed): seq<Listed> {
    if rows == [] || Before(row.address.name, rows[0].address.name) then [row] + rows
    else [rows[0]] + InsertRow(rows[1..], row)
  }

  function SortRows(rows: seq<Listed>): seq<Listed> {
    if rows == [] then [] else InsertRow(SortRows(rows[..|rows| - 1]), rows[|rows| - 1])
  }

  lemma {:induction false} InsertHolds(rows: seq<Listed>, row: Listed)
    ensures forall x :: x in InsertRow(rows, row) <==> x == row || x in rows
  {
    if !(rows == [] || Before(row.address.name, rows[0].address.name)) {
      InsertHolds(rows[1..], row);
      assert rows == [rows[0]] + rows[1..];
    }
  }

  lemma {:induction false} InsertAscends(rows: seq<Listed>, row: Listed)
    requires Ascending(rows) && forall x | x in rows :: x.address.name != row.address.name
    ensures Ascending(InsertRow(rows, row))
  {
    if rows == [] {
    } else {
      var first := rows[0].address.name;
      if Before(row.address.name, first) {
        forall j | 0 <= j < |rows|
          ensures Before(row.address.name, rows[j].address.name)
        {
          BeforeIsStrict(row.address.name, first, rows[j].address.name);
        }
      } else {
        InsertAscends(rows[1..], row);
        InsertHolds(rows[1..], row);
        BeforeIsStrict(row.address.name, first, "");
        var tail := InsertRow(rows[1..], row);
        forall j | 0 <= j < |tail|
          ensures Before(first, tail[j].address.name)
        {
          assert tail[j] in tail;
          if tail[j] != row {
            var k :| 0 <= k < |rows[1..]| && rows[1..][k] == tail[j];
            assert rows[k + 1] == tail[j];
          }
        }
      }
    }
  }

  predicate DistinctNames(rows: seq<Listed>) {
    forall i, j :: 0 <= i < j < |rows| ==> rows[i].address.name != rows[j].address.name
  }

  /** Sorting keeps the rows; rows of distinct names come out in strict order. */
  lemma {:induction false} SortedRows(rows: seq<Listed>)
    requires DistinctNames(rows)
    ensures Ascending(SortRows(rows)) && forall x :: x in SortRows(rows) <==> x in rows
  {
    if rows != [] {
      var front, last := rows[..|rows| - 1], rows[|rows| - 1];
      SortedRows(front);
      InsertHolds(SortRows(front), last);
      assert rows == front + [last];
      forall x | x in SortRows(front)
        ensures x.address.name != last.address.name
      {
        var i :| 0 <= i < |front| && front[i] == x;
        assert rows[i] == x && rows[|rows| - 1] == last;
      }
      InsertAscends(SortRows(front), last);
    }
  }

  // ---- Rows gathered from what a backend found, then sorted ----

  /** The rows the first `n` items give; some give none. */
  function RowsOf<T>(row: T -> Option<Listed>, items: seq<T>, n: nat): seq<Listed>
    requires n <= |items|
  {
    if n == 0 then []
    else RowsOf(row, items, n - 1) + if row(items[n - 1]).Some? then [row(items[n - 1]).value] else []
  }

  predicate Yields<T>(row: T -> Option<Listed>, items: seq<T>, n: nat, r: Listed)
    requires n <= |items|
  {
    exists j :: 0 <= j < n && row(items[j]) == Some(r)
  }

  lemma {:induction false} RowsOfAre<T>(row: T -> Option<Listed>, items: seq<T>, n: nat, r: Listed)
    requires n <= |items|
    ensures r in RowsOf(row, items, n) <==> Yields(row, items, n, r)
  {
    if n > 0 {
      RowsOfAre(row, items, n - 1, r);
      if Yields(row, items, n - 1, r) {
        var j :| 0 <= j < n - 1 && row(items[j]) == Some(r);
        assert row(items[j]) == Some(r);
      }
    }
  }

  /** No two items give rows of one name. */
  predicate NamesApart<T>(row: T -> Option<Listed>, items: seq<T>) {
    forall i, j | 0 <= i < j < |items| && row(items[i]).Some? && row(items[j]).Some? ::
      row(items[i]).value.address.name != row(items[j]).value.address.name
  }

  lemma {:induction false} RowsOfDistinct<T>(row: T -> Option<Listed>, items: seq<T>, n: nat)
    requires n <= |items| && NamesApart(row, items)
    ensures DistinctNames(RowsOf(row, items, n))
  {
    if n > 0 {
      RowsOfDistinct(row, items, n - 1);
      var front := RowsOf(row, items, n - 1);
      if row(items[n - 1]).Some? {
        forall i | 0 <= i < |front|
          ensures front[i].address.name != row(items[n - 1]).value.address.name
        {
          RowsOfAre(row, items, n - 1, front[i]);
        }
      }
    }
  }

  predicate Reaches<T>(row: T -> Option<Listed>, items: seq<T>, a: Address) {
    exists j :: 0 <= j < |items| && row(items[j]).Some? && row(items[j]).value.address == a
  }

  predicate AllRowsOf<T>(v: Vault, scope: Scope, row: T -> Option<Listed>, items: seq<T>) {
    forall j | 0 <= j < |items| && row(items[j]).Some? :: RowOf(v, scope, row(items[j]).value)
  }

  lemma YieldedIsRow<T>(v: Vault, scope: Scope, row: T -> Option<Listed>, items: seq<T>, r: Listed)
    requires AllRowsOf(v, scope, row, items) && Yields(row, items, |items|, r)
    ensures RowOf(v, scope, r)
  {
    hide RowOf;
  }

  lemma ReachedIsCovered<T>(row: T -> Option<Listed>, items: seq<T>, a: Address, sorted: seq<Listed>)
    requires Reaches(row, items, a) && forall r :: r in sorted <==> r in RowsOf(row, items, |items|)
    ensures Covers(sorted, a)
  {
    var j :| 0 <= j < |items| && row(items[j]).Some? && row(items[j]).value.address == a;
    var r := row(items[j]).value;
    assert row(items[j]) == Some(r);
    RowsOfAre(row, items, |items|, r);
    hide RowsOf;
    var i :| 0 <= i < |sorted| && sorted[i] == r;
    assert sorted[i].address == a;
  }

  /** Rows of distinct names, all of the scope's part of the map and all of it, are, sorted, its
      listing. */
  lemma RowsList<T>(v: Vault, scope: Scope, row: T -> Option<Listed>, items: seq<T>)
    requires NamesApart(row, items) && AllRowsOf(v, scope, row, items)
    requires forall a | a in v && a.scope == scope :: Reaches(row, items, a)
    ensures Lists(v, scope, SortRows(RowsOf(row, items, |items|)))
  {
    hide RowsOf, SortRows, Ascending, DistinctNames, RowOf, NamesApart, AllRowsOf, Yields, Reaches, Covers;
    var rows := RowsOf(row, items, |items|);
    RowsOfDistinct(row, items, |items|);
    SortedRows(rows);
    var sorted := SortRows(rows);
    forall i | 0 <= i < |sorted|
      ensures RowOf(v, scope, sorted[i])
    {
      RowsOfAre(row, items, |items|, sorted[i]);
      YieldedIsRow(v, scope, row, items, sorted[i]);
    }
    forall a | a in v && a.scope == scope
      ensures Covers(sorted, a)
    {
      ReachedIsCovered(row, items, a, sorted);
    }
  }

  // ---- The map kept in memory ----

  datatype Call =
    | ReadCall(address: Address)
    | WriteCall(address: Address)
    | DeleteCall(address: Address)
    | RenameCall(address: Address, newName: SecretName)
    | ListCall(scope: Scope)

  datatype Mode = ReadWrite | ReadOnlyBound

  function CountedVersion(writes: nat): Version {
    "v" + Digits(writes)
  }

  lemma LeastAddress(s: set<Address>)
    requires s != {} && forall a, b | a in s && b in s :: a.scope == b.scope
    ensures exists a :: a in s && forall b | b in s :: a == b || Before(a.name, b.name)
  {
    hide Before, ParseName, ParseScopeName;
    var names := set a | a in s :: a.name;
    var x :| x in s;
    assert x.name in names;
    LeastText(names);
    var name :| name in names && forall other | other in names :: name == other || Before(name, other);
    var a :| a in s && a.name == name;
    forall b | b in s
      ensures a == b || Before(a.name, b.name)
    {
      assert b.name in names;
    }
  }

  lemma CoversMore(rows: seq<Listed>, row: Listed, a: Address)
    requires Covers(rows, a) || row.address == a
    ensures Covers(rows + [row], a)
  {
    if Covers(rows, a) {
      var i :| 0 <= i < |rows| && rows[i].address == a;
      assert (rows + [row])[i].address == a;
    } else {
      assert (rows + [row])[|rows|].address == a;
    }
  }

  predicate AllBefore(rows: seq<Listed>, rest: set<Address>) {
    forall i, a | 0 <= i < |rows| && a in rest :: Before(rows[i].address.name, a.name)
  }

  predicate Least(rest: set<Address>, a: Address) {
    a in rest && forall b | b in rest :: a == b || Before(a.name, b.name)
  }

  lemma AllBeforeMore(rows: seq<Listed>, rest: set<Address>, row: Listed)
    requires AllBefore(rows, rest) && Ascending(rows) && Least(rest, row.address)
    ensures AllBefore(rows + [row], rest - {row.address}) && Ascending(rows + [row])
  {
    hide Before;
    assert forall i | 0 <= i < |rows| :: Before(rows[i].address.name, row.address.name);
  }

  /** The entries of a scope, least address first, as an ordered map yields them. */
  method InOrder(v: Vault, scope: Scope) returns (rows: seq<Listed>)
    ensures Lists(v, scope, rows)
  {
    var rest := set a | a in v && a.scope == scope;
    rows := [];
    assert AllBefore(rows, rest) && Ascending(rows);
    hide Covers, AllBefore, Least, Ascending;
    while rest != {}
      invariant forall a | a in rest :: a in v && a.scope == scope
      invariant forall i :: 0 <= i < |rows| ==> RowOf(v, scope, rows[i])
      invariant forall a | a in v && a.scope == scope && a !in rest :: Covers(rows, a)
      invariant AllBefore(rows, rest) && Ascending(rows)
      decreases |rest|
    {
      var a := TakeLeast(rest);
      var row := Listed(a, Some(v[a].version));
      AllBeforeMore(rows, rest, row);
      forall b | b in v && b.scope == scope && b !in rest - {a}
        ensures Covers(rows + [row], b)
      {
        CoversMore(rows, row, b);
      }
      rows := rows + [row];
      rest := rest - {a};
    }
  }

  method TakeLeast(rest: set<Address>) returns (a: Address)
    requires rest != {} && forall a, b | a in rest && b in rest :: a.scope == b.scope
    ensures Least(rest, a)
  {
    LeastAddress(rest);
    a :| a in rest && forall b | b in rest :: a == b || Before(a.name, b.name);
  }

  class RecordingBackend {
    const mode: Mode
    var unavailable: bool
    var calls: seq<Call>
    var byAddress: Vault
    var byLocator: map<Locator, Stored>
    var writes: nat

    constructor (mode: Mode)
      ensures this.mode == mode && !unavailable && calls == [] && byAddress == map[] && byLocator == map[] && writes == 0
    {
      this.mode := mode;
      unavailable, calls, byAddress, byLocator, writes := false, [], map[], map[], 0;
    }

    /** Every version handed out so far is an earlier count. */
    ghost predicate Valid()
      reads this
    {
      && (forall a | a in byAddress :: exists n: nat :: 1 <= n <= writes && byAddress[a].version == CountedVersion(n))
      && (forall l | l in byLocator :: exists n: nat :: 1 <= n <= writes && byLocator[l].version == CountedVersion(n))
    }

    method Preload(locator: Locator, value: SecretValue)
      requires Valid()
      modifies this`byLocator, this`writes
      ensures Valid() && byLocator == old(byLocator)[locator := Stored(value, CountedVersion(writes))]
    {
      writes := writes + 1;
      byLocator := byLocator[locator := Stored(value, CountedVersion(writes))];
    }

    method Read(target: Target) returns (r: Result<Revealed, StorageError>)
      modifies this`calls
      ensures calls == old(calls) + [ReadCall(target.address)]
      ensures r == if unavailable then Err(Unavailable)
                   else if mode == ReadWrite then ReadOf(byAddress, target.address)
                   else if target.locator.Some? && target.locator.value in byLocator then
                     Ok(Revealed(byLocator[target.locator.value].value, Some(byLocator[target.locator.value].version)))
                   else Err(NotFound)
    {
      calls := calls + [ReadCall(target.address)];
      if unavailable {
        return Err(Unavailable);
      }
      if mode == ReadWrite {
        if target.address !in byAddress {
          return Err(NotFound);
        }
        var held := byAddress[target.address];
        return Ok(Revealed(held.value, Some(held.version)));
      }
      if target.locator.None? || target.locator.value !in byLocator {
        return Err(NotFound);
      }
      var held := byLocator[target.locator.value];
      return Ok(Revealed(held.value, Some(held.version)));
    }

    /** A write that succeeds gives the address the value under a version nothing here had. */
    method Write(target: Target, value: SecretValue) returns (r: Result<Written, StorageError>)
      requires Valid()
      modifies this`calls, this`byAddress, this`writes
      ensures Valid() && calls == old(calls) + [WriteCall(target.address)]
      ensures if unavailable || mode == ReadOnlyBound then
                r == Err(if unavailable then Unavailable else Unsupported) && byAddress == old(byAddress)
              else
                && byAddress == old(byAddress)[target.address := Stored(value, CountedVersion(writes))]
                && r == Ok(WrittenAt(old(byAddress), target.address, CountedVersion(writes)))
                && forall a | a in old(byAddress) :: old(byAddress)[a].version != CountedVersion(writes)
    {
      calls := calls + [WriteCall(target.address)];
      if unavailable {
        return Err(Unavailable);
      }
      if mode == ReadOnlyBound {
        return Err(Unsupported);
      }
      writes := writes + 1;
      var version := CountedVersion(writes);
      forall a | a in byAddress
        ensures byAddress[a].version != version
      {
        var n: nat :| 1 <= n < writes && byAddress[a].version == CountedVersion(n);
        if CountedVersion(n) == version {
          SameCut("v", "v", Digits(n), Digits(writes));
          DigitsInjective(n, writes);
        }
      }
      var replaced := target.address in byAddress;
      byAddress := byAddress[target.address := Stored(value, version)];
      return Ok(if replaced then Replaced(Some(version)) else Created(Some(version)));
    }

    method Delete(target: Target) returns (r: Result<(), StorageError>)
      requires Valid()
      modifies this`calls, this`byAddress
      ensures Valid() && calls == old(calls) + [DeleteCall(target.address)]
      ensures if unavailable || mode == ReadOnlyBound then
                r == Err(if unavailable then Unavailable else Unsupported) && byAddress == old(byAddress)
              else Deletes(old(byAddress), target.address, byAddress, r)
    {
      calls := calls + [DeleteCall(target.address)];
      if unavailable {
        return Err(Unavailable);
      }
      if mode == ReadOnlyBound {
        return Err(Unsupported);
      }
      if target.address !in byAddress {
        assert byAddress == byAddress - {target.address};
        return Err(NotFound);
      }
      byAddress := byAddress - {target.address};
      return Ok(());
    }

    /** The destination is looked at before the source. */
    method Rename(target: Target, newName: SecretName) returns (r: Result<(), StorageError>)
      requires Valid()
      modifies this`calls, this`byAddress
      ensures Valid() && calls == old(calls) + [RenameCall(target.address, newName)]
      ensures var to := Address(target.address.scope, newName);
              if unavailable || mode == ReadOnlyBound then
                r == Err(if unavailable then Unavailable else Unsupported) && byAddress == old(byAddress)
              else
                && Renames(old(byAddress), target.address, to, byAddress, r)
                && (to in old(byAddress) ==> r == Err(Conflict))
                && (r.Ok? ==> byAddress == Moved(old(byAddress), target.address, to))
    {
      calls := calls + [RenameCall(target.address, newName)];
      if unavailable {
        return Err(Unavailable);
      }
      if mode == ReadOnlyBound {
        return Err(Unsupported);
      }
      var to := Address(target.address.scope, newName);
      if to in byAddress {
        return Err(Conflict);
      }
      if target.address !in byAddress {
        return Err(NotFound);
      }
      var held := byAddress[target.address];
      byAddress := byAddress - {target.address};
      byAddress := byAddress[to := held];
      return Ok(());
    }

    /** The map's own order, filtered to the scope. */
    method List(scope: Scope) returns (r: Result<seq<Listed>, StorageError>)
      modifies this`calls
      ensures calls == old(calls) + [ListCall(scope)]
      ensures if unavailable || mode == ReadOnlyBound then r == Err(if unavailable then Unavailable else Unsupported)
              else r.Ok? && Lists(byAddress, scope, r.value)
    {
      calls := calls + [ListCall(scope)];
      if unavailable {
        return Err(Unavailable);
      }
      if mode == ReadOnlyBound {
        return Err(Unsupported);
      }
      var rows := InOrder(byAddress, scope);
      return Ok(rows);
    }
  }
}
