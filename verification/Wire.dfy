/** The requests as the client writes them, and the service's limit on a request's body. */
module Wire {
  import opened Basics
  import opened Core
  import opened Crypto
  import opened Custody
  import opened Names
  import opened AddressCodecs
  import opened ValueBound
  import Http

  // ---- Bodies ----

  /** The first of some texts in byte order. */
  function Least(texts: set<string>): (least: string)
    requires texts != {}
    ensures least in texts && forall k | k in texts :: least == k || Before(least, k)
  {
    LeastText(texts);
    assert forall a, b | Before(a, b) :: !Before(b, a) by {
      forall a, b | Before(a, b)
        ensures !Before(b, a)
      {
        BeforeIsStrict(a, b, a);
      }
    }
    var k :| k in texts && forall other | other in texts :: k == other || Before(k, other);
    k
  }

  /** A record's labels, in the byte order of their names. */
  function LabelFields(labels: map<string, string>): Fields
    decreases |labels|
  {
    if labels == map[] then NoFields
    else
      var name := Least(labels.Keys);
      assert labels.Keys == (labels - {name}).Keys + {name};
      Field(Escape(name), Text(labels[name]), LabelFields(labels - {name}))
  }

  function Count(fields: Fields): nat {
    if fields.NoFields? then 0 else 1 + Count(fields.rest)
  }

  predicate Has(fields: Fields, name: string, value: Json) {
    fields.Field? && ((fields.name == name && fields.value == value) || Has(fields.rest, name, value))
  }

  /** Every label is written, once, and nothing else. */
  lemma {:induction false} LabelsWritten(labels: map<string, string>)
    ensures Count(LabelFields(labels)) == |labels|
    ensures forall k | k in labels :: Has(LabelFields(labels), Escape(k), Text(labels[k]))
    decreases |labels|
  {
    if labels != map[] {
      var name := Least(labels.Keys);
      var rest := labels - {name};
      assert labels.Keys == rest.Keys + {name};
      assert |labels| == |rest| + 1 by {
        assert |labels.Keys| == |rest.Keys| + 1;
      }
      LabelsWritten(rest);
      hide Escape;
      forall k | k in labels
        ensures Has(LabelFields(labels), Escape(k), Text(labels[k]))
      {
        assert k != name ==> k in rest && rest[k] == labels[k];
      }
    }
  }

  function InputJson(input: PutSecret): Json {
    PutJson(input.reference, input.owner, input.value, input.disclosure, LabelFields(input.labels))
  }

  function MutationJson(m: Mutation): Json {
    match m
    case Put(secret) => Object(Field("op", Word("put"), Field("secret", InputJson(secret), NoFields)))
    case Delete(r) => Object(Field("op", Word("delete"), Field("reference", RefJson(r), NoFields)))
  }

  function MutationItems(ms: seq<Mutation>): Items {
    if ms == [] then NoItems else Item(MutationJson(ms[0]), MutationItems(ms[1..]))
  }

  function Body(request: Http.Request): string {
    match request
    case UserList => ""
    case UserDetail(r) => Render(RefJson(r))
    case UserRevoke(r) => Render(RefJson(r))
    case UserDelete(r) => Render(RefJson(r))
    case WorkloadPut(input, _) => Render(InputJson(input))
    case WorkloadGet(r) => Render(RefJson(r))
    case WorkloadExists(r) => Render(RefJson(r))
    case WorkloadList(tenant, namespace) => Render(Object(Field("tenant", Text(tenant), Field("namespace", Text(namespace), NoFields))))
    case WorkloadDelete(r, actor) =>
      Render(Object(Field("reference", RefJson(r), if actor.None? then NoFields else Field("actor", Text(actor.value), NoFields))))
    case WorkloadPrepare(_, _, mutations, actor, _, _, _, _) =>
      Render(Object(Field("actor", Text(actor), Field("mutations", Array(MutationItems(mutations)), NoFields))))
    case WorkloadCommit(_, _, _, _, _) => ""
    case WorkloadAbort(_, _, _) => ""
  }

  predicate Fits(request: Http.Request) {
    |Body(request)| <= SERVICE_BODY_LIMIT
  }

  /** What the service does with a request: one that is too large is refused before it is looked at,
      whoever sent it. */
  function Receive(db: Db, ring: Keyring, caller: Http.Caller, request: Http.Request): (Db, Http.Response) {
    if Fits(request) then Http.Handle(db, ring, caller, request) else (db, Http.Failure(Http.TooLarge))
  }

  // ---- What fits ----

  /** Requests that carry no value fit, whatever address they name. */
  lemma NamedRequestsFit(a: Address)
    ensures Fits(Http.WorkloadGet(Reference(a))) && Fits(Http.WorkloadExists(Reference(a)))
    ensures Fits(Http.WorkloadDelete(Reference(a), Some(a.scope.user)))
    ensures Fits(Http.WorkloadList(a.scope.tenant, a.scope.namespace))
  {
    AddressPlain(a);
    RefSize(Reference(a));
    hide Render, ParseName, Plain, RefBytes, Reference, ParseScopeName, RefJson;
    RenderSize(RefJson(Reference(a)));
    DeleteFits(RefJson(Reference(a)), a.scope.user);
    ScopeFits(a.scope);
  }

  lemma OneField(name: string, value: Json)
    ensures FieldsSize(Field(name, value, NoFields)) == |name| + 3 + Size(value)
    ensures FieldsPlain(Field(name, value, NoFields)) <==> AllPlain(value)
  {
    hide Size, AllPlain;
  }

  /** The length of an object of two plain fields. */
  lemma TwoFields(first: string, a: Json, second: string, b: Json)
    requires AllPlain(a) && AllPlain(b)
    ensures |Render(Object(Field(first, a, Field(second, b, NoFields))))| == |first| + |second| + Size(a) + Size(b) + 9
  {
    OneField(second, b);
    var last := Field(second, b, NoFields);
    var fields := Field(first, a, last);
    assert FieldsSize(fields) == |first| + 4 + Size(a) + FieldsSize(last) && FieldsPlain(fields) by {
      hide Size, AllPlain;
    }
    assert AllPlain(Object(fields)) && Size(Object(fields)) == 2 + FieldsSize(fields) by {
      hide FieldsSize, FieldsPlain;
    }
    hide Size, AllPlain, FieldsSize, FieldsPlain, Render;
    RenderSize(Object(fields));
  }

  lemma DeleteFits(reference: Json, actor: string)
    requires AllPlain(reference) && Plain(actor)
    ensures |Render(Object(Field("reference", reference, Field("actor", Text(actor), NoFields))))| == 25 + |actor| + Size(reference)
  {
    hide Plain, Render, FieldsSize, FieldsPlain;
    TwoFields("reference", reference, "actor", Text(actor));
    assert Size(Text(actor)) == |actor| + 2;
  }

  lemma ScopeFits(scope: Scope)
    ensures |Render(Object(Field("tenant", Text(scope.tenant), Field("namespace", Text(scope.namespace), NoFields))))| <= 200
  {
    hide ParseScopeName, Render, FieldsSize, FieldsPlain;
    ScopeNamePlain(scope.tenant);
    ScopeNamePlain(scope.namespace);
    assert Plain(scope.tenant) && Plain(scope.namespace);
    hide Plain;
    TwoFields("tenant", Text(scope.tenant), "namespace", Text(scope.namespace));
    assert Size(Text(scope.tenant)) == |scope.tenant| + 2 && Size(Text(scope.namespace)) == |scope.namespace| + 2;
  }

  lemma NoLabels()
    ensures LabelFields(map[]) == NoFields
  {
  }

  /** A put of the client's own fits when its value is within the bound. */
  lemma OwnPutFits(a: Address, value: string, seed: Seed)
    requires |value| <= MaxValueBytes()
    ensures Fits(Http.WorkloadPut(PutSecret(Reference(a), a.scope.user, value, WorkloadOnly, map[]), seed))
  {
    NoLabels();
    hide Render, ParseName, Reference, MaxValueBytes, PutJson;
    AcceptedValueFits(a, a.name, value);
  }

  /** Commit and abort name their batch in the path and carry no body. */
  lemma BatchCallsFit(request: Http.Request)
    requires request.WorkloadCommit? || request.WorkloadAbort?
    ensures Fits(request)
  {
  }

  // ---- Renames ----

  /** The length of the body a rename of the stored record sends. */
  function RenameBytes(from: Address, newName: SecretName, stored: StoredSecret): nat {
    |RenameBody(from, newName, stored.value, stored.metadata.disclosure, LabelFields(stored.metadata.labels))|
  }

  lemma TwoMutations(first: Mutation, second: Mutation)
    ensures MutationItems([first, second]) == Item(MutationJson(first), Item(MutationJson(second), NoItems))
  {
    hide MutationJson;
    assert [first, second][1..] == [second];
    assert MutationItems([second]) == Item(MutationJson(second), MutationItems([]));
  }

  /** Which is the body of the batch it prepares. */
  lemma RenameFits(from: Address, newName: SecretName, stored: StoredSecret, request: Http.Request)
    requires request.WorkloadPrepare? && request.preparer == from.scope.user
    requires request.mutations == [
      Put(PutSecret(Reference(Address(from.scope, newName)), from.scope.user, stored.value, stored.metadata.disclosure, stored.metadata.labels)),
      Delete(Reference(from))]
    ensures Fits(request) <==> RenameBytes(from, newName, stored) <= SERVICE_BODY_LIMIT
  {
    hide Render, RefJson, PutJson, LabelFields, Reference, ParseName;
    TwoMutations(request.mutations[0], request.mutations[1]);
  }
}
