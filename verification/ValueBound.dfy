/** The largest value the custody client accepts: request bodies as the JSON text they are, base64
    values inside them, and the 1 MiB the service reads. */
module ValueBound {
  import opened Basics
  import opened Core
  import opened Names
  import opened AddressCodecs

  const SERVICE_BODY_LIMIT: nat := 1024 * 1024

  // ---- JSON text ----

  // A word is a text of the protocol's own, written as it stands; so are field names.
  datatype Json = Text(text: string) | Word(word: string) | Array(items: Items) | Object(fields: Fields)
  datatype Items = NoItems | Item(item: Json, others: Items)
  datatype Fields = NoFields | Field(name: string, value: Json, rest: Fields)

  function EscapeChar(c: char): string {
    if c == '"' then "\\\""
    else if c == '\\' then "\\\\"
    else if c == '\n' then "\\n"
    else if c == '\r' then "\\r"
    else if c == '\t' then "\\t"
    else if c as int == 8 then "\\b"
    else if c as int == 12 then "\\f"
    else if (c as int) < 32 then "\\u00" + [HexDigit(c as int / 16), HexDigit(c as int % 16)]
    else [c]
  }

  function Escape(s: string): string {
    if s == "" then "" else EscapeChar(s[0]) + Escape(s[1..])
  }

  /** Quotes, backslashes and the named controls take two bytes, the other controls six, and everything
      else one. */
  lemma EscapeBytes(c: char)
    ensures |EscapeChar(c)| == if c == '"' || c == '\\' || c as int in {8, 9, 10, 12, 13} then 2 else if c as int < 32 then 6 else 1
  {
  }

  /** A JSON string's content read back (section 7 of RFC 8259); a bare quote or control character, or
      an escape that is none, is no such content. */
  function Unescape(t: string): Option<string>
    decreases |t|
  {
    if t == "" then Some("")
    else if t[0] == '"' || (t[0] as int) < 32 then None
    else if t[0] != '\\' then Then(t[0], Unescape(t[1..]))
    else if |t| < 2 then None
    else if t[1] == 'u' then
      if |t| < 6 || t[2..4] != "00" || HexDigitValue(t[4]) < 0 || HexDigitValue(t[5]) < 0 then None
      else Then((HexDigitValue(t[4]) * 16 + HexDigitValue(t[5])) as char, Unescape(t[6..]))
    else
      match Named(t[1])
      case Some(c) => Then(c, Unescape(t[2..]))
      case None => None
  }

  function Then(c: char, rest: Option<string>): Option<string> {
    if rest.Some? then Some([c] + rest.value) else None
  }

  /** The character a one-letter escape names. */
  function Named(c: char): Option<char> {
    if c == '"' || c == '\\' || c == '/' then Some(c)
    else if c == 'n' then Some(10 as char)
    else if c == 'r' then Some(13 as char)
    else if c == 't' then Some(9 as char)
    else if c == 'b' then Some(8 as char)
    else if c == 'f' then Some(12 as char)
    else None
  }

  lemma EscapedChar(c: char, rest: string)
    ensures Unescape(EscapeChar(c) + rest) == Then(c, Unescape(rest))
  {
    var e := EscapeChar(c);
    assert (e + rest)[|e|..] == rest;
    if c as int < 32 && |e| == 6 {
      HexDigitMeans(c as int / 16);
      HexDigitMeans(c as int % 16);
      assert (e + rest)[2..4] == "00" && (e + rest)[4] == e[4] && (e + rest)[5] == e[5];
    }
    hide HexDigit, HexDigitValue;
  }

  /** Every text survives its escaping. */
  lemma {:induction false} EscapeRoundTrip(s: string)
    ensures Unescape(Escape(s)) == Some(s)
  {
    if s != "" {
      EscapedChar(s[0], Escape(s[1..]));
      EscapeRoundTrip(s[1..]);
      hide EscapeChar, Unescape;
      assert s == [s[0]] + s[1..];
    }
  }

  function Render(j: Json): string {
    match j
    case Text(text) => "\"" + Escape(text) + "\""
    case Word(word) => "\"" + word + "\""
    case Array(items) => "[" + RenderItems(items) + "]"
    case Object(fields) => "{" + RenderFields(fields) + "}"
  }

  function RenderItems(items: Items): string {
    match items
    case NoItems => ""
    case Item(item, others) => Render(item) + (if others.NoItems? then "" else "," + RenderItems(others))
  }

  function RenderFields(fields: Fields): string {
    match fields
    case NoFields => ""
    case Field(name, value, rest) =>
      "\"" + name + "\":" + Render(value) + (if rest.NoFields? then "" else "," + RenderFields(rest))
  }

  predicate Plain(s: string) {
    forall i :: 0 <= i < |s| ==> s[i] != '"' && s[i] != '\\' && s[i] as int >= 32
  }

  lemma {:induction false} PlainIsItself(s: string)
    requires Plain(s)
    ensures Escape(s) == s
  {
    if s != "" {
      assert Plain(s[1..]);
      PlainIsItself(s[1..]);
      assert s == [s[0]] + s[1..];
    }
  }

  // ---- Base64 (section 4 of RFC 4648) ----

  /** One character of the alphabet. */
  function Sextet(n: int): (c: char)
    ensures c != '"' && c != '\\' && c as int >= 32
  {
    var d := n % 64;
    if d < 26 then (65 + d) as char
    else if d < 52 then (97 + d - 26) as char
    else if d < 62 then (48 + d - 52) as char
    else if d == 62 then '+' else '/'
  }

  /** The four characters of 24 bits. */
  function Group(n: nat): (g: string)
    ensures |g| == 4 && Plain(g)
  {
    [Sextet(n / 262144), Sextet(n / 4096), Sextet(n / 64), Sextet(n)]
  }

  /** Three bytes to four characters, the last group padded with `=`. */
  function Base64(v: string): string {
    if |v| == 0 then ""
    else if |v| == 1 then Group(v[0] as int * 65536)[..2] + "=="
    else if |v| == 2 then Group(v[0] as int * 65536 + v[1] as int * 256)[..3] + "="
    else Group(v[0] as int * 65536 + v[1] as int * 256 + v[2] as int) + Base64(v[3..])
  }

  lemma {:induction false} Base64Size(v: string)
    ensures |Base64(v)| == (|v| + 2) / 3 * 4 && Plain(Base64(v))
  {
    hide Group;
    if |v| > 2 {
      Base64Size(v[3..]);
    }
  }

  /** What a character of the alphabet stands for. */
  function Unsextet(c: char): int {
    if 'A' <= c <= 'Z' then c as int - 'A' as int
    else if 'a' <= c <= 'z' then 26 + (c as int - 'a' as int)
    else if '0' <= c <= '9' then 52 + (c as int - '0' as int)
    else if c == '+' then 62 else if c == '/' then 63 else -1
  }

  lemma SextetMeans(n: nat)
    ensures Unsextet(Sextet(n)) == n % 64 && Sextet(n) != '='
  {
  }

  /** Four characters back to three bytes, fewer where the group is padded. */
  function Unbase64(t: string): string {
    if |t| < 4 then ""
    else
      var p, q, r, s := Unsextet(t[0]), Unsextet(t[1]), Unsextet(t[2]), Unsextet(t[3]);
      if t[2] == '=' then [Byte(p * 4 + q / 16)]
      else if t[3] == '=' then [Byte(p * 4 + q / 16), Byte(q % 16 * 16 + r / 4)]
      else [Byte(p * 4 + q / 16), Byte(q % 16 * 16 + r / 4), Byte(r % 4 * 64 + s)] + Unbase64(t[4..])
  }

  function Byte(n: int): char {
    if 0 <= n < 256 then n as char else '\0'
  }

  /** The sextets of three bytes. */
  lemma GroupCuts(a: nat, b: nat, c: nat)
    requires a < 256 && b < 256 && c < 256
    ensures var n := a * 65536 + b * 256 + c;
            && n / 262144 % 64 == a / 4 && n / 4096 % 64 == a % 4 * 16 + b / 16
            && n / 64 % 64 == b % 16 * 4 + c / 64 && n % 64 == c % 64
  {
    var p, q, r, s := a / 4, a % 4 * 16 + b / 16, b % 16 * 4 + c / 64, c % 64;
    var n := a * 65536 + b * 256 + c;
    assert n == p * 262144 + q * 4096 + r * 64 + s;
    SextetCuts(p, q, r, s);
  }

  lemma SextetCuts(p: nat, q: nat, r: nat, s: nat)
    requires p < 64 && q < 64 && r < 64 && s < 64
    ensures var n := p * 262144 + q * 4096 + r * 64 + s;
            n / 262144 % 64 == p && n / 4096 % 64 == q && n / 64 % 64 == r && n % 64 == s
  {
    var n := p * 262144 + q * 4096 + r * 64 + s;
    assert n / 262144 == p;
    assert n / 4096 == p * 64 + q;
    assert n / 64 == (p * 64 + q) * 64 + r;
  }

  /** What the group's characters stand for. */
  lemma GroupMeans(a: nat, b: nat, c: nat)
    requires a < 256 && b < 256 && c < 256
    ensures var g := Group(a * 65536 + b * 256 + c);
            && Unsextet(g[0]) == a / 4 && Unsextet(g[1]) == a % 4 * 16 + b / 16
            && Unsextet(g[2]) == b % 16 * 4 + c / 64 && Unsextet(g[3]) == c % 64
            && g[2] != '=' && g[3] != '='
  {
    GroupCuts(a, b, c);
    SextetsMean(a * 65536 + b * 256 + c);
    hide Group;
  }

  lemma SextetsMean(n: nat)
    ensures var g := Group(n);
            && Unsextet(g[0]) == n / 262144 % 64 && Unsextet(g[1]) == n / 4096 % 64
            && Unsextet(g[2]) == n / 64 % 64 && Unsextet(g[3]) == n % 64
            && g[2] != '=' && g[3] != '='
  {
    SextetMeans(n / 262144);
    SextetMeans(n / 4096);
    SextetMeans(n / 64);
    SextetMeans(n);
    hide Sextet, Unsextet;
  }

  lemma CutAt16(p: nat, q: nat)
    requires q < 16
    ensures (p * 16 + q) / 16 == p && (p * 16 + q) % 16 == q
  {
  }

  lemma CutAt4(p: nat, q: nat)
    requires q < 4
    ensures (p * 4 + q) / 4 == p && (p * 4 + q) % 4 == q
  {
  }

  lemma BytesBack(a: nat, b: nat, c: nat)
    requires a < 256 && b < 256 && c < 256
    ensures var q, r := a % 4 * 16 + b / 16, b % 16 * 4 + c / 64;
            && Byte(a / 4 * 4 + q / 16) == a as char && Byte(q % 16 * 16 + r / 4) == b as char
            && Byte(r % 4 * 64 + c % 64) == c as char
  {
    hide Byte;
    CutAt16(a % 4, b / 16);
    CutAt4(b % 16, c / 64);
    assert a / 4 * 4 + a % 4 == a && b / 16 * 16 + b % 16 == b && c / 64 * 64 + c % 64 == c;
    ByteIs(a);
    ByteIs(b);
    ByteIs(c);
  }

  lemma ByteIs(n: nat)
    requires n < 256
    ensures Byte(n) == n as char
  {
  }

  /** What is sent as base64 decodes to the value. */
  lemma {:induction false} Base64RoundTrip(v: string)
    requires Bytes(v)
    ensures Unbase64(Base64(v)) == v
  {
    hide Group, Unsextet, Byte;
    if |v| > 0 {
      var a, b, c := v[0] as int, if |v| > 1 then v[1] as int else 0, if |v| > 2 then v[2] as int else 0;
      GroupMeans(a, b, c);
      BytesBack(a, b, c);
      if |v| > 2 {
        assert Bytes(v[3..]);
        Base64RoundTrip(v[3..]);
        assert Base64(v)[4..] == Base64(v[3..]);
        assert v == v[..3] + v[3..];
      }
    }
  }

  // ---- The bodies the client sends ----

  function RefJson(r: SecretRef): Json {
    Object(Field("tenant", Text(r.tenant), Field("namespace", Text(r.namespace), Field("key", Text(r.key), NoFields))))
  }

  function DisclosureText(d: Disclosure): string {
    match d
    case WorkloadOnly => "workload_only"
    case UserRevealable => "user_revealable"
  }

  /** A put, its labels already in order. */
  function PutJson(r: SecretRef, owner: string, value: string, d: Disclosure, labels: Fields): Json {
    Object(Field("reference", RefJson(r),
           Field("owner_subject", Text(owner),
           Field("value", Text(Base64(value)),
           Field("disclosure", Word(DisclosureText(d)),
           Field("labels", Object(labels), NoFields))))))
  }

  /** A rename's prepare: put under the new reference, delete the old one. */
  function RenameJson(from: SecretRef, to: SecretRef, owner: string, value: string, d: Disclosure, labels: Fields): Json {
    Object(Field("actor", Text(owner),
           Field("mutations",
             Array(Item(Object(Field("op", Word("put"), Field("secret", PutJson(to, owner, value, d, labels), NoFields))),
                   Item(Object(Field("op", Word("delete"), Field("reference", RefJson(from), NoFields))), NoItems))),
           NoFields)))
  }

  function WriteBody(a: Address, value: string): string {
    Render(PutJson(Reference(a), a.scope.user, value, WorkloadOnly, NoFields))
  }

  function RenameBody(a: Address, newName: SecretName, value: string, d: Disclosure, labels: Fields): string {
    Render(RenameJson(Reference(a), Reference(Address(a.scope, newName)), a.scope.user, value, d, labels))
  }

  // ---- The bound ----

  function Widest(): SecretRef {
    SecretRef(Repeat(MAX_SEGMENT_BYTES), Repeat(MAX_SEGMENT_BYTES), Repeat(MAX_SEGMENT_BYTES) + "/" + Repeat(MAX_NAME_BYTES))
  }

  /** The largest request with an empty value: a rename's batch with every part at its bound. */
  function EnvelopeBytes(): nat {
    |Render(RenameJson(Widest(), Widest(), Repeat(MAX_SEGMENT_BYTES), "", WorkloadOnly, NoFields))|
  }

  /** What is left of a body beside its envelope. */
  function Room(envelope: nat): nat {
    if envelope > SERVICE_BODY_LIMIT then 0 else SERVICE_BODY_LIMIT - envelope
  }

  function MaxValueBytes(): nat {
    hide Render;
    Room(EnvelopeBytes()) / 4 * 3
  }

  // ---- Sizes ----

  predicate AllPlain(j: Json) {
    match j
    case Text(text) => Plain(text)
    case Word(_) => true
    case Array(items) => ItemsPlain(items)
    case Object(fields) => FieldsPlain(fields)
  }

  predicate ItemsPlain(items: Items) {
    items.Item? ==> AllPlain(items.item) && ItemsPlain(items.others)
  }

  predicate FieldsPlain(fields: Fields) {
    fields.Field? ==> AllPlain(fields.value) && FieldsPlain(fields.rest)
  }

  function Size(j: Json): nat {
    match j
    case Text(text) => |text| + 2
    case Word(word) => |word| + 2
    case Array(items) => 2 + ItemsSize(items)
    case Object(fields) => 2 + FieldsSize(fields)
  }

  function ItemsSize(items: Items): nat {
    if items.NoItems? then 0 else Size(items.item) + if items.others.NoItems? then 0 else 1 + ItemsSize(items.others)
  }

  function FieldsSize(fields: Fields): nat {
    if fields.NoFields? then 0
    else |fields.name| + 3 + Size(fields.value) + if fields.rest.NoFields? then 0 else 1 + FieldsSize(fields.rest)
  }

  lemma {:induction false} RenderSize(j: Json)
    requires AllPlain(j)
    ensures |Render(j)| == Size(j)
  {
    match j
    case Text(text) => PlainIsItself(text);
    case Word(_) =>
    case Array(items) => ItemsRenderSize(items);
    case Object(fields) => FieldsRenderSize(fields);
  }

  lemma {:induction false} ItemsRenderSize(items: Items)
    requires ItemsPlain(items)
    ensures |RenderItems(items)| == ItemsSize(items)
  {
    if items.Item? {
      RenderSize(items.item);
      ItemsRenderSize(items.others);
    }
  }

  lemma {:induction false} FieldsRenderSize(fields: Fields)
    requires FieldsPlain(fields)
    ensures |RenderFields(fields)| == FieldsSize(fields)
  {
    if fields.Field? {
      RenderSize(fields.value);
      FieldsRenderSize(fields.rest);
    }
  }

  predicate PlainRef(r: SecretRef) {
    Plain(r.tenant) && Plain(r.namespace) && Plain(r.key)
  }

  function RefBytes(r: SecretRef): nat {
    |r.tenant| + |r.namespace| + |r.key|
  }

  lemma RefSize(r: SecretRef)
    ensures Size(RefJson(r)) == 37 + RefBytes(r)
    ensures PlainRef(r) ==> AllPlain(RefJson(r))
  {
    var key := Field("key", Text(r.key), NoFields);
    assert AllPlain(Text(r.key)) <==> Plain(r.key);
    var namespace := Field("namespace", Text(r.namespace), key);
    var tenant := Field("tenant", Text(r.tenant), namespace);
    assert FieldsSize(key) == |r.key| + 8 && (FieldsPlain(key) <==> Plain(r.key));
    assert FieldsSize(namespace) == |r.namespace| + |r.key| + 23 && (FieldsPlain(namespace) <==> Plain(r.namespace) && Plain(r.key));
    assert FieldsSize(tenant) == RefBytes(r) + 35 && (FieldsPlain(tenant) <==> PlainRef(r));
  }

  lemma PutSize(r: SecretRef, owner: string, value: string, d: Disclosure)
    ensures Size(PutJson(r, owner, value, d, NoFields)) == 109 + RefBytes(r) + |owner| + |Base64(value)| + |DisclosureText(d)|
    ensures PlainRef(r) && Plain(owner) ==> AllPlain(PutJson(r, owner, value, d, NoFields))
  {
    RefSize(r);
    Base64Size(value);
    hide Base64, DisclosureText, PlainRef, RefBytes, Plain, RefJson;
    var labels := Field("labels", Object(NoFields), NoFields);
    var disclosure := Field("disclosure", Word(DisclosureText(d)), labels);
    var bytes := Field("value", Text(Base64(value)), disclosure);
    var subject := Field("owner_subject", Text(owner), bytes);
    var reference := Field("reference", RefJson(r), subject);
    assert FieldsSize(labels) == 11 && FieldsPlain(labels);
    assert FieldsSize(disclosure) == 27 + |DisclosureText(d)| && FieldsPlain(disclosure);
    assert FieldsSize(bytes) == 38 + |DisclosureText(d)| + |Base64(value)| && FieldsPlain(bytes);
    assert FieldsSize(subject) == 57 + |DisclosureText(d)| + |Base64(value)| + |owner| && (FieldsPlain(subject) <==> Plain(owner));
    assert FieldsSize(reference) == 13 + Size(RefJson(r)) + FieldsSize(subject);
    assert Size(Object(reference)) == 2 + FieldsSize(reference);
    assert PutJson(r, owner, value, d, NoFields) == Object(reference);
  }

  lemma RenameSize(from: SecretRef, to: SecretRef, owner: string, value: string, d: Disclosure)
    ensures Size(RenameJson(from, to, owner, value, d, NoFields))
            == 224 + RefBytes(from) + RefBytes(to) + 2 * |owner| + |Base64(value)| + |DisclosureText(d)|
    ensures PlainRef(from) && PlainRef(to) && Plain(owner) ==> AllPlain(RenameJson(from, to, owner, value, d, NoFields))
  {
    RefSize(from);
    PutSize(to, owner, value, d);
    hide Base64, DisclosureText, PlainRef, RefBytes, Plain, RefJson, PutJson;
    var secret := Field("secret", PutJson(to, owner, value, d, NoFields), NoFields);
    var putOp := Field("op", Word("put"), secret);
    var put := Object(putOp);
    var reference := Field("reference", RefJson(from), NoFields);
    var deleteOp := Field("op", Word("delete"), reference);
    var delete := Object(deleteOp);
    assert FieldsSize(secret) == 9 + Size(secret.value) && (FieldsPlain(secret) <==> AllPlain(secret.value));
    assert FieldsSize(putOp) == 11 + FieldsSize(secret) && (FieldsPlain(putOp) <==> FieldsPlain(secret));
    assert Size(put) == 22 + Size(secret.value) && (AllPlain(put) <==> AllPlain(secret.value));
    assert FieldsSize(reference) == 12 + Size(reference.value) && (FieldsPlain(reference) <==> AllPlain(reference.value));
    assert FieldsSize(deleteOp) == 14 + FieldsSize(reference) && (FieldsPlain(deleteOp) <==> FieldsPlain(reference));
    assert Size(delete) == 28 + Size(reference.value) && (AllPlain(delete) <==> AllPlain(reference.value));
    var last := Item(delete, NoItems);
    var items := Item(put, last);
    assert ItemsSize(last) == Size(delete) && (ItemsPlain(last) <==> AllPlain(delete));
    assert ItemsSize(items) == Size(put) + 1 + Size(delete) && (ItemsPlain(items) <==> AllPlain(put) && AllPlain(delete));
    var mutations := Field("mutations", Array(items), NoFields);
    assert FieldsSize(mutations) == 14 + ItemsSize(items) && (FieldsPlain(mutations) <==> ItemsPlain(items));
    var actor := Field("actor", Text(owner), mutations);
    assert FieldsSize(actor) == 11 + |owner| + FieldsSize(mutations);
    assert FieldsPlain(actor) <==> Plain(owner) && FieldsPlain(mutations) by {
      assert AllPlain(Text(owner)) <==> Plain(owner);
    }
    assert RenameJson(from, to, owner, value, d, NoFields) == Object(actor);
    assert Size(Object(actor)) == 2 + FieldsSize(actor);
  }

  lemma RepeatPlain(n: nat)
    ensures Plain(Repeat(n))
  {
  }

  lemma WidestPlain()
    ensures PlainRef(Widest()) && RefBytes(Widest()) == 2 * MAX_SEGMENT_BYTES + MAX_KEY
  {
    RepeatPlain(MAX_SEGMENT_BYTES);
    RepeatPlain(MAX_NAME_BYTES);
  }

  /** The client's bound: a 1007-byte envelope leaves room for values of 785,676 bytes. */
  lemma TheBound()
    ensures EnvelopeBytes() == 1007 && MaxValueBytes() == 785676
  {
    WidestPlain();
    RepeatPlain(MAX_SEGMENT_BYTES);
    hide Render, AllPlain, Widest, RefBytes, PlainRef, Base64, Size;
    assert |Base64("")| == 0 by {
      Base64Size("");
    }
    RenameSize(Widest(), Widest(), Repeat(MAX_SEGMENT_BYTES), "", WorkloadOnly);
    RenderSize(RenameJson(Widest(), Widest(), Repeat(MAX_SEGMENT_BYTES), "", WorkloadOnly, NoFields));
    assert |DisclosureText(WorkloadOnly)| == 13;
  }

  lemma AddressPlain(a: Address)
    ensures PlainRef(Reference(a)) && Plain(a.scope.user)
    ensures RefBytes(Reference(a)) <= 2 * MAX_SEGMENT_BYTES + MAX_KEY && |a.scope.user| <= MAX_SEGMENT_BYTES
  {
    hide ParseName, ParseScopeName;
    ScopeNamePlain(a.scope.tenant);
    ScopeNamePlain(a.scope.namespace);
    ScopeNamePlain(a.scope.user);
    SecretNamePlain(a.name);
  }

  lemma BodySizes(a: Address, newName: SecretName, value: string, d: Disclosure)
    ensures |WriteBody(a, value)| == 109 + RefBytes(Reference(a)) + |a.scope.user| + |Base64(value)| + 13
    ensures |RenameBody(a, newName, value, d, NoFields)|
            == 224 + RefBytes(Reference(a)) + RefBytes(Reference(Address(a.scope, newName))) + 2 * |a.scope.user| + |Base64(value)| + |DisclosureText(d)|
  {
    var b := Address(a.scope, newName);
    AddressPlain(a);
    AddressPlain(b);
    hide Render, AllPlain, RefBytes, PlainRef, Base64, Size, Reference, ParseName, Plain;
    PutSize(Reference(a), a.scope.user, value, WorkloadOnly);
    RenderSize(PutJson(Reference(a), a.scope.user, value, WorkloadOnly, NoFields));
    RenameSize(Reference(a), Reference(b), a.scope.user, value, d);
    RenderSize(RenameJson(Reference(a), Reference(b), a.scope.user, value, d, NoFields));
    assert |DisclosureText(WorkloadOnly)| == 13;
  }

  /** Sound: every value the client accepts fits, both as the write and as any later rename of it to
      any legal name, so a value that can be written can be renamed. */
  lemma AcceptedValueFits(a: Address, newName: SecretName, value: string)
    requires |value| <= MaxValueBytes()
    ensures |WriteBody(a, value)| <= SERVICE_BODY_LIMIT
    ensures |RenameBody(a, newName, value, WorkloadOnly, NoFields)| <= SERVICE_BODY_LIMIT
  {
    TheBound();
    AddressPlain(a);
    AddressPlain(Address(a.scope, newName));
    Base64Size(value);
    hide EnvelopeBytes, MaxValueBytes, WriteBody, RenameBody, RefBytes, Base64, ParseName;
    BodySizes(a, newName, value, WorkloadOnly);
    assert |DisclosureText(WorkloadOnly)| == 13;
  }

  predicate AtBounds(a: Address, newName: SecretName) {
    && RefBytes(Reference(a)) == 2 * MAX_SEGMENT_BYTES + MAX_KEY
    && |a.scope.user| == MAX_SEGMENT_BYTES && |newName| == MAX_NAME_BYTES
  }

  /** Every part can be at its bound at once. */
  lemma BoundsMet() returns (a: Address, newName: SecretName)
    ensures AtBounds(a, newName) && a.name != newName
  {
    var scope := Repeat(64);
    TwoSegments(64, 63);
    TwoSegments(63, 64);
    a := Address(Scope(scope, scope, scope), scope + ['/'] + Repeat(63));
    newName := Repeat(63) + ['/'] + scope;
    assert a.name[63] == 'a' && newName[63] == '/';
    hide ParseName;
  }

  lemma WidestRename(a: Address, newName: SecretName, value: string, d: Disclosure)
    requires AtBounds(a, newName)
    ensures |RenameBody(a, newName, value, d, NoFields)| == 994 + |DisclosureText(d)| + (|value| + 2) / 3 * 4
  {
    assert RefBytes(Reference(Address(a.scope, newName))) == RefBytes(Reference(a));
    Base64Size(value);
    hide RenameBody, RefBytes, Base64, ParseName, Reference, DisclosureText;
    BodySizes(a, newName, value, d);
  }

  /** Tight: with every name at its bound, one byte more does not fit. */
  lemma OneByteMoreOverflows(a: Address, newName: SecretName, value: string)
    requires AtBounds(a, newName) && |value| == MaxValueBytes() + 1
    ensures |RenameBody(a, newName, value, WorkloadOnly, NoFields)| > SERVICE_BODY_LIMIT
  {
    hide RenameBody, EnvelopeBytes, MaxValueBytes, AtBounds;
    TheBound();
    WidestRename(a, newName, value, WorkloadOnly);
    assert |DisclosureText(WorkloadOnly)| == 13;
  }

  /** The bound is for what the client itself writes. A record put by someone else as user-revealable
      takes two bytes more, and at the bound its rename no longer fits. */
  lemma RevealableRenameOverflows(a: Address, newName: SecretName, value: string)
    requires AtBounds(a, newName) && |value| == MaxValueBytes()
    ensures |RenameBody(a, newName, value, UserRevealable, NoFields)| == SERVICE_BODY_LIMIT + 1
  {
    hide RenameBody, EnvelopeBytes, MaxValueBytes, AtBounds;
    TheBound();
    WidestRename(a, newName, value, UserRevealable);
    assert |DisclosureText(UserRevealable)| == 15;
  }
}
