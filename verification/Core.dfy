/** The custody resource model: references, values, batches and the closed refusals. */
module Core {
  import opened Basics

  datatype Disclosure = WorkloadOnly | UserRevealable

  datatype SecretRef = SecretRef(tenant: string, namespace: string, key: string)

  datatype PutSecret = PutSecret(
    reference: SecretRef,
    owner: string,
    value: string,
    disclosure: Disclosure,
    labels: map<string, string>)

  datatype Mutation = Put(secret: PutSecret) | Delete(reference: SecretRef) {
    function Target(): SecretRef {
      match this
      case Put(secret) => secret.reference
      case Delete(reference) => reference
    }
  }

  datatype InvalidInput = MalformedReference | InvalidReference | EmptyBatch | CrossTenantBatch

  datatype StoreError =
    | NotFound
    | DeleteTargetMissing
    | Conflict
    | Invalid(input: InvalidInput)
    | Unavailable
    | Crypto

  datatype SecretState = Active | Revoked

  const MAX_PART: nat := 255

  predicate Malformed(part: string) {
    part == "" || Contains(part, '\0')
  }

  /** A malformed part is reported wherever it is; otherwise an overlong one. */
  function ValidateRef(r: SecretRef): Result<(), StoreError> {
    if Malformed(r.tenant) || Malformed(r.namespace) || Malformed(r.key) then
      Err(Invalid(MalformedReference))
    else if |r.tenant| > MAX_PART || |r.namespace| > MAX_PART || |r.key| > MAX_PART then
      Err(Invalid(InvalidReference))
    else
      Ok(())
  }

  /** A reference is accepted exactly when each part has 1 to 255 bytes, none of them NUL; an empty part
      or one with a NUL is malformed whatever else is wrong, and an overlong one is reported last. */
  lemma ValidateRefIff(r: SecretRef)
    ensures var parts := {r.tenant, r.namespace, r.key};
            && (ValidateRef(r) == Ok(()) <==> forall part | part in parts :: 1 <= |part| <= 255 && '\0' !in part)
            && (ValidateRef(r) == Err(Invalid(MalformedReference)) <==> exists part | part in parts :: part == "" || '\0' in part)
            && (ValidateRef(r) == Err(Invalid(InvalidReference)) <==>
                  && (forall part | part in parts :: part != "" && '\0' !in part)
                  && exists part | part in parts :: |part| > 255)
  {
    assert forall part: string :: Contains(part, '\0') <==> '\0' in part;
  }

  predicate NulFree(r: SecretRef) {
    !Contains(r.tenant, '\0') && !Contains(r.namespace, '\0') && !Contains(r.key, '\0')
  }
}
