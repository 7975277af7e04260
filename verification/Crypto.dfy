/** Two-level envelope encryption over an ideal AEAD: a sealed text opens only under the key, nonce
    and associated data it was sealed with, and then yields exactly what was sealed. Randomness is
    an input (`Draw`). */
module Crypto {
  import opened Basics
  import opened Core

  /** What an envelope carries: a secret's bytes, or a batch with its expiry in front. */
  datatype Message = Value(bytes: string) | Batch(expiry: int, mutations: seq<Mutation>)

  datatype Sealed<T> = Sealed(key: string, nonce: string, aad: string, body: T)

  datatype Envelope = Envelope(
    ciphertext: Sealed<Message>,
    valueNonce: string,
    wrappedKey: Sealed<string>,
    wrapNonce: string,
    keyId: string)

  datatype CryptoError = Failed | KeyNotFound

  datatype Keyring = Keyring(active: string, keys: map<string, string>)

  /** What one seal takes from the random source: a data key and two nonces, or nothing. */
  datatype Draw = Draw(dek: string, valueNonce: string, wrapNonce: string) | NoEntropy {
    predicate Usable() {
      Draw? && |dek| == 32
    }
  }

  function Unseal<T>(key: string, nonce: string, aad: string, sealed: Sealed<T>): Result<T, CryptoError> {
    if sealed.key == key && sealed.nonce == nonce && sealed.aad == aad then Ok(sealed.body) else Err(Failed)
  }

  function Seal(ring: Keyring, aad: string, message: Message, draw: Draw): Result<Envelope, CryptoError> {
    if ring.active !in ring.keys then Err(KeyNotFound)
    else if !draw.Usable() then Err(Failed)
    else
      Ok(Envelope(
        Sealed(draw.dek, draw.valueNonce, aad, message),
        draw.valueNonce,
        Sealed(ring.keys[ring.active], draw.wrapNonce, aad, draw.dek),
        draw.wrapNonce,
        ring.active))
  }

  function Open(keys: map<string, string>, aad: string, e: Envelope): Result<Message, CryptoError> {
    if e.keyId !in keys then Err(KeyNotFound)
    else
      var dek := Unseal(keys[e.keyId], e.wrapNonce, aad, e.wrappedKey);
      if dek.Err? || |dek.value| != 32 then Err(Failed)
      else Unseal(dek.value, e.valueNonce, aad, e.ciphertext)
  }

  /** A sealed envelope opens, to what was sealed, exactly for a reader that holds the sealing key
      under the envelope's key id and names the same associated data. */
  lemma OpensOnlyWhereSealed(ring: Keyring, aad: string, m: Message, draw: Draw, keys: map<string, string>, aad': string)
    requires Seal(ring, aad, m, draw).Ok?
    ensures var e := Seal(ring, aad, m, draw).value;
            && (Open(keys, aad', e).Ok? <==> ring.active in keys && keys[ring.active] == ring.keys[ring.active] && aad' == aad)
            && (Open(keys, aad', e).Ok? ==> Open(keys, aad', e).value == m)
  {
  }

  /** Sealing takes an active key that is held and a data key of 32 bytes, and is under that key. */
  lemma SealsIff(ring: Keyring, aad: string, m: Message, draw: Draw)
    ensures Seal(ring, aad, m, draw).Ok? <==> ring.active in ring.keys && draw != NoEntropy && |draw.dek| == 32
    ensures Seal(ring, aad, m, draw) == Err(KeyNotFound) <==> ring.active !in ring.keys
    ensures Seal(ring, aad, m, draw).Ok? ==> Seal(ring, aad, m, draw).value.keyId == ring.active
  {
  }

  /** Any envelope, whoever made it, opens to a message exactly when its data key was sealed under the
      named key and the message under that data key, each with the nonce beside it and with this
      associated data. */
  lemma OpensIff(keys: map<string, string>, aad: string, e: Envelope, m: Message)
    ensures Open(keys, aad, e) == Ok(m) <==>
      && e.keyId in keys && |e.wrappedKey.body| == 32
      && e.wrappedKey == Sealed(keys[e.keyId], e.wrapNonce, aad, e.wrappedKey.body)
      && e.ciphertext == Sealed(e.wrappedKey.body, e.valueNonce, aad, m)
    ensures Open(keys, aad, e) == Err(KeyNotFound) <==> e.keyId !in keys
  {
  }

  // ---- Associated data ----

  const SECRET_DOMAIN := "secrets/v1"
  const BATCH_DOMAIN := "secrets/prepared-batch/v1"

  function DisclosureName(d: Disclosure): string {
    match d
    case WorkloadOnly => "WorkloadOnly"
    case UserRevealable => "UserRevealable"
  }

  function AssociatedData(r: SecretRef, version: int, d: Disclosure): string {
    SECRET_DOMAIN + ['\0'] + (r.tenant + ['\0'] + (r.namespace + ['\0'] + (r.key + ['\0'] +
      (Decimal(version) + ['\0'] + DisclosureName(d)))))
  }

  function BatchAssociatedData(tenant: string, transaction: string, actor: string): string {
    BATCH_DOMAIN + ['\0'] + (BigEndian(|tenant|, 8) + (tenant + (transaction + (BigEndian(|actor|, 8) + actor))))
  }

  /** The text itself: the domain, the reference's parts, the version and the disclosure, between NULs. */
  lemma AssociatedText(r: SecretRef, version: int, d: Disclosure)
    ensures AssociatedData(r, version, d) ==
            "secrets/v1\0" + r.tenant + "\0" + r.namespace + "\0" + r.key + "\0" + Decimal(version) + "\0"
            + (if d == WorkloadOnly then "WorkloadOnly" else "UserRevealable")
  {
  }

  /** And a batch's: the domain and a NUL, the tenant and the actor each after its length in eight
      big-endian bytes, and the transaction between them. */
  lemma BatchAssociatedText(tenant: string, transaction: string, actor: string) returns (t: string, a: string)
    requires |tenant| < TWO_64 && |actor| < TWO_64
    ensures |t| == 8 == |a| && BytesValue(t) == |tenant| && BytesValue(a) == |actor|
    ensures BatchAssociatedData(tenant, transaction, actor) ==
            "secrets/prepared-batch/v1\0" + t + tenant + transaction + a + actor
  {
    EightBytesCoverU64();
    BigEndianMeans(|tenant|, 8);
    BigEndianMeans(|actor|, 8);
    t, a := BigEndian(|tenant|, 8), BigEndian(|actor|, 8);
    hide BigEndian, BytesValue;
    assert BATCH_DOMAIN + ['\0'] == "secrets/prepared-batch/v1\0";
    Regrouped(BATCH_DOMAIN + ['\0'], t, tenant, transaction, a, actor);
  }

  lemma Regrouped(d: string, t: string, tenant: string, x: string, a: string, actor: string)
    ensures d + (t + (tenant + (x + (a + actor)))) == d + t + tenant + x + a + actor
  {
    assert d + (t + (tenant + (x + (a + actor)))) == d + t + (tenant + (x + (a + actor)));
    assert d + t + (tenant + (x + (a + actor))) == d + t + tenant + (x + (a + actor));
  }

  /** Over NUL-free reference parts, one associated text names one reference, version and
      disclosure. */
  lemma AssociatedDataInjective(r: SecretRef, v: int, d: Disclosure, r': SecretRef, v': int, d': Disclosure)
    requires NulFree(r) && NulFree(r')
    requires AssociatedData(r, v, d) == AssociatedData(r', v', d')
    ensures r == r' && v == v' && d == d'
  {
    DecimalPlain(v);
    DecimalPlain(v');
    var n, n' := DisclosureName(d), DisclosureName(d');
    var t4, t4' := Decimal(v) + ['\0'] + n, Decimal(v') + ['\0'] + n';
    var t3, t3' := r.key + ['\0'] + t4, r'.key + ['\0'] + t4';
    var t2, t2' := r.namespace + ['\0'] + t3, r'.namespace + ['\0'] + t3';
    var t1, t1' := r.tenant + ['\0'] + t2, r'.tenant + ['\0'] + t2';
    SameCut(SECRET_DOMAIN + ['\0'], SECRET_DOMAIN + ['\0'], t1, t1');
    FirstSeparator(r.tenant, r'.tenant, t2, t2', '\0');
    FirstSeparator(r.namespace, r'.namespace, t3, t3', '\0');
    FirstSeparator(r.key, r'.key, t4, t4', '\0');
    FirstSeparator(Decimal(v), Decimal(v'), n, n', '\0');
    DecimalInjective(v, v');
    assert n[0] == n'[0];
  }

  /** Without that, two references can share one text: a NUL moves the boundary. */
  lemma NulMovesTheBoundary()
    ensures var a, b := SecretRef("a\0b", "c", "k"), SecretRef("a", "b\0c", "k");
            a != b && AssociatedData(a, 1, WorkloadOnly) == AssociatedData(b, 1, WorkloadOnly)
  {
    var rest := "k" + ['\0'] + (Decimal(1) + ['\0'] + DisclosureName(WorkloadOnly));
    assert "a\0b" + ['\0'] + ("c" + ['\0'] + rest) == "a" + ['\0'] + ("b\0c" + ['\0'] + rest);
    assert "a\0b" != "a" by { assert |"a\0b"| == 3; }
  }

  /** One batch text names one tenant, transaction and actor, whatever bytes they hold. */
  lemma BatchAssociatedDataInjective(t: string, x: string, a: string, t': string, x': string, a': string)
    requires |x| == 16 == |x'| && |t| < TWO_64 && |t'| < TWO_64 && |a| < TWO_64 && |a'| < TWO_64
    requires BatchAssociatedData(t, x, a) == BatchAssociatedData(t', x', a')
    ensures t == t' && x == x' && a == a'
  {
    EightBytesCoverU64();
    var s3, s3' := BigEndian(|a|, 8) + a, BigEndian(|a'|, 8) + a';
    var s2, s2' := x + s3, x' + s3';
    var s1, s1' := t + s2, t' + s2';
    SameCut(BATCH_DOMAIN + ['\0'], BATCH_DOMAIN + ['\0'], BigEndian(|t|, 8) + s1, BigEndian(|t'|, 8) + s1');
    SameCut(BigEndian(|t|, 8), BigEndian(|t'|, 8), s1, s1');
    BigEndianInjective(|t|, |t'|, 8);
    SameCut(t, t', s2, s2');
    SameCut(x, x', s3, s3');
    SameCut(BigEndian(|a|, 8), BigEndian(|a'|, 8), a, a');
  }

  /** No secret's text is a batch's text. */
  lemma DomainsDisjoint(r: SecretRef, v: int, d: Disclosure, t: string, x: string, a: string)
    ensures AssociatedData(r, v, d) != BatchAssociatedData(t, x, a)
  {
    assert AssociatedData(r, v, d)[8] == SECRET_DOMAIN[8] == 'v';
    assert BatchAssociatedData(t, x, a)[8] == BATCH_DOMAIN[8] == 'p';
  }

  // ---- The keyring's operations ----

  function Encrypt(ring: Keyring, r: SecretRef, version: int, d: Disclosure, value: string, draw: Draw): Result<Envelope, CryptoError> {
    Seal(ring, AssociatedData(r, version, d), Value(value), draw)
  }

  /** The stored value, when the envelope is one of this reference, version and disclosure. */
  function Decrypt(keys: map<string, string>, r: SecretRef, version: int, d: Disclosure, e: Envelope): Result<string, CryptoError> {
    match Open(keys, AssociatedData(r, version, d), e)
    case Ok(Value(bytes)) => Ok(bytes)
    case Ok(Batch(_, _)) => Err(Failed)
    case Err(error) => Err(error)
  }

  function SealBatch(ring: Keyring, tenant: string, transaction: string, actor: string, batch: Message, draw: Draw): Result<Envelope, CryptoError> {
    Seal(ring, BatchAssociatedData(tenant, transaction, actor), batch, draw)
  }

  function OpenBatch(keys: map<string, string>, tenant: string, transaction: string, actor: string, e: Envelope): Result<Message, CryptoError> {
    Open(keys, BatchAssociatedData(tenant, transaction, actor), e)
  }

  function ResealBatch(ring: Keyring, tenant: string, transaction: string, actor: string, e: Envelope, draw: Draw): Result<Envelope, CryptoError> {
    match OpenBatch(ring.keys, tenant, transaction, actor, e)
    case Ok(batch) => SealBatch(ring, tenant, transaction, actor, batch, draw)
    case Err(error) => Err(error)
  }

  /** A stored version opens under the sealing key for the reference, version and disclosure it was
      sealed for and for no other, and never as a batch. */
  lemma VersionEnvelopeBound(ring: Keyring, r: SecretRef, v: int, d: Disclosure, value: string, draw: Draw,
                             r': SecretRef, v': int, d': Disclosure, t: string, x: string, a: string)
    requires NulFree(r) && NulFree(r') && Encrypt(ring, r, v, d, value, draw).Ok?
    ensures var e := Encrypt(ring, r, v, d, value, draw).value;
            && (Decrypt(ring.keys, r', v', d', e).Ok? <==> r' == r && v' == v && d' == d)
            && Decrypt(ring.keys, r, v, d, e) == Ok(value)
            && OpenBatch(ring.keys, t, x, a, e).Err?
  {
    DomainsDisjoint(r, v, d, t, x, a);
    if AssociatedData(r', v', d') == AssociatedData(r, v, d) {
      AssociatedDataInjective(r', v', d', r, v, d);
    }
  }

  /** A held batch opens under the sealing key for its own tenant, transaction and actor only, and
      never as a secret; resealing moves it to the active key unread. */
  lemma BatchEnvelopeBound(ring: Keyring, t: string, x: string, a: string, batch: Message, draw: Draw,
                           t': string, x': string, a': string, r: SecretRef, v: int, d: Disclosure)
    requires |x| == 16 == |x'| && |t| < TWO_64 && |t'| < TWO_64 && |a| < TWO_64 && |a'| < TWO_64
    requires SealBatch(ring, t, x, a, batch, draw).Ok?
    ensures var e := SealBatch(ring, t, x, a, batch, draw).value;
            && (OpenBatch(ring.keys, t', x', a', e).Ok? <==> t' == t && x' == x && a' == a)
            && OpenBatch(ring.keys, t, x, a, e) == Ok(batch)
            && Decrypt(ring.keys, r, v, d, e).Err?
  {
    DomainsDisjoint(r, v, d, t, x, a);
    if BatchAssociatedData(t', x', a') == BatchAssociatedData(t, x, a) {
      BatchAssociatedDataInjective(t', x', a', t, x, a);
    }
  }
}
