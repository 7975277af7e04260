# Secret custody and storage, modelled and proved

Two stores are modelled, each of which promises to behave like a plain map, and the composition
between them.

**Custody** is the service over PostgreSQL: secrets with their versions, prepared batches and an audit
log, values sealed in two-level envelopes. `Crypto` has the envelopes and their associated data over an
ideal AEAD, `Custody` the SQL transactions as steps over the tables, `Postgres` the same store as
classes with the source's statements and loops, and `PlainStore` the map. `CustodyRefinement` and
`CustodyRuns` prove that every interleaving of transactions is a run of that map. `Batches`,
`AuditTrail`, `Rotation`, `RotationRuns`, `AfterRotation` and `PutDisclosures` prove what prepared
batches, the log and key rotation promise over whole runs. `Http` has the handlers as functions over the
store, `Routes` what each route answers and leaves, `UserRaces` what a user's change does when others run between its check and itself, and `Tenants`
the separation of tenants.

**The storage library** is the port and what implements it. `Names` and `AddressCodecs` have the names
and the two text forms of an address; `Port` the types, the plain address-to-value map and the
in-memory backend that is that map. `Keychain` and `Remote` prove the two real backends against it,
with every keychain call and every network exchange allowed to fail; `ValueBound` is the size bound the
remote one rests on and `Wire` its requests against the service's limit. `Config`, `Document`, `FileConfig` and `FileRuns` have the namespace configuration
in memory and in a file, the latter with any number of concurrent and crashing processes. `Federation`
is mount routing behind the local authorizer. `Out` is the file a revealed value is written to.

A text is its UTF-8 bytes, one `char` a byte. Randomness, fresh identifiers, clocks, the order a query
returns rows in and the order a map is walked in are inputs, and a theorem holds for all of them. A run
is assumed to supply new UUIDs (section 5.7 of RFC 9562), and keyrings to agree on the key an id names.
AES-GCM (NIST SP 800-38D) is ideal: open succeeds only with the same key, nonce and associated data.

Where code and intent part, the code is modelled:

- Rotation decrypts every version with its secret's present disclosure, so it is refused once a
  disclosure has changed between puts (`RotationRuns.ChangedDisclosureBlocksRotation`); the exact
  condition is `PutDisclosures.RotationSucceedsIffDisclosuresKept`.
- `SetMount` is guarded by held secrets only, so it can change what bindings reach
  (`Federation.RemountCanReveal`); the exact condition is `Federation.RemountReadableIff`.
- The size bound covers what the remote backend writes itself (`Remote.OwnRecordFits`); a record another
  client put as user-revealable, or with large labels, can be too wide to rename
  (`Remote.RevealableStays`). A clean rename succeeds if and only if its body is within the service's
  limit (`Remote.RenameRefines`).
- A user's delete or revoke checks ownership in one transaction and changes in another, so it can remove a
  row that became someone else's in between (`UserRaces.DeletesAnothersRow`); the exact condition is
  `UserRaces.ChangesOwnRowIff`.
- A rename that meets both a missing source and a taken destination is refused for the destination by
  the in-memory backend and for the source by the other two; the map allows either.
- A file change can be answered `unavailable` after it took effect, when only the directory's sync
  failed (`FileConfig.FileConfig.Change`).

## Model

| member | source | states |
|---|---|---|
| Crypto.OpensOnlyWhereSealed | crates/secrets-crypto/src/lib.rs:135-203 | what is sealed opens, to exactly what was sealed, if and only if the reader holds the sealing key under the envelope's key id and names the same associated data |
| Crypto.SealsIff | crates/secrets-crypto/src/lib.rs:135-180 | sealing succeeds if and only if the active key is held and the draw gives a 32-byte data key, and is under the active key |
| Crypto.OpensIff | crates/secrets-crypto/src/lib.rs:150-203 | any envelope, whoever made it, opens to a message if and only if its data key was sealed under the named key and the message under that data key, each with the nonce beside it and this associated data |
| Crypto.AssociatedText | crates/secrets-crypto/src/lib.rs:206-212 | the associated data itself: domain, tenant, namespace, key, version and disclosure between NULs |
| Crypto.BatchAssociatedText | crates/secrets-crypto/src/lib.rs:214-223 | a batch's: domain and NUL, tenant and actor each after its length in eight big-endian bytes, the transaction between them |
| Crypto.AssociatedDataInjective | crates/secrets-crypto/src/lib.rs:206-212 | over NUL-free reference parts, two equal associated texts are of one reference, version and disclosure |
| Crypto.NulMovesTheBoundary | crates/secrets-postgres/src/lib.rs:443-455 | without the NUL check two different references share one associated text: a concrete pair |
| Crypto.BatchAssociatedDataInjective | crates/secrets-crypto/src/lib.rs:214-224 | two equal batch texts are of one tenant, 16-byte transaction and actor, whatever bytes they hold |
| Crypto.DomainsDisjoint | crates/secrets-crypto/src/lib.rs:206-224 | no secret version's text is a batch's text |
| Crypto.VersionEnvelopeBound | crates/secrets-crypto/src/lib.rs:73-93 | a sealed version opens, to its value, for its own reference, version and disclosure and no other, and never as a batch |
| Crypto.BatchEnvelopeBound | crates/secrets-crypto/src/lib.rs:95-113 | a sealed batch opens for its own tenant, transaction and actor only, and never as a secret |
| Core.ValidateRefIff | crates/secrets-postgres/src/lib.rs:443-455 | a reference is accepted exactly when each part has 1 to 255 bytes, none of them NUL; malformed exactly when some part is empty or has a NUL; overlong only when none is |
| CustodyRefinement.PutEffect | crates/secrets-postgres/src/lib.rs:123-158 | exactly when a put is accepted, the whole row, version and log entry it leaves, and which refusal each failing condition gets |
| CustodyRefinement.PutOverwritesNothing | crates/secrets-postgres/src/lib.rs:123-158 | whatever is drawn for it, an accepted put takes no other row's identifier and changes no earlier version |
| CustodyRefinement.PutKeeps | crates/secrets-postgres/src/lib.rs:123-158 | a put on the tables and a put on the plain map succeed together, leave related states, and refuse with the same error |
| CustodyRefinement.DeleteKeeps | crates/secrets-postgres/src/lib.rs:171-191 | a delete, of an active or revoked record alike, is the map's removal; NotFound exactly when nothing is there |
| CustodyRefinement.RevokeKeeps | crates/secrets-postgres/src/lib.rs:239-252 | a revoke hides the cell and keeps its value and version |
| CustodyRefinement.ApplyKeeps | crates/secrets-postgres/src/lib.rs:341-361 | a batch's loop over its mutations is the fold of the map's own operations, error for error |
| CustodyRefinement.CommitKeeps | crates/secrets-postgres/src/lib.rs:314-363 | a commit keeps the tables related to the map and answers only what the map allows |
| CustodyRuns.StepRefines | crates/secrets-postgres/src/lib.rs:53-382 | one transaction of any kind, by any client, keeps the four tables related to the plain map, which moves only as that operation says |
| CustodyRuns.RunRefines | crates/secrets-postgres/src/lib.rs:53-382 | over every interleaving from the empty tables the stored state is the plain map's and every answer is one the plain map allows; purges, both rotation transactions, failed transactions and edited expiry columns move nothing |
| CustodyRuns.GetReadsTheMap | crates/secrets-postgres/src/lib.rs:206-231 | a read returns the map's value and metadata while the secret is active, NotFound otherwise, and Crypto only when the reader lacks the sealing key |
| CustodyRuns.OnlyNamedCellsChange | crates/secrets-postgres/src/lib.rs:123-191 | a step that does not name a reference leaves its cell |
| CustodyRuns.ReadsLastPut | crates/secrets-postgres/src/lib.rs:198-225 | after an answered put, and any steps that do not name the reference, a read returns the value put |
| CustodyRuns.LastMutationDecides | crates/secrets-postgres/src/lib.rs:341-361 | of a batch's mutations the last naming a reference decides what is stored there |
| CustodyRuns.ReadsLastCommitted | crates/secrets-postgres/src/lib.rs:206-225 | after an answered commit, and any steps that do not name the reference, a read returns what the batch's last mutation of it put, or NotFound if it deleted it |
| Rotation.RewrapRowsCarry | crates/secrets-postgres/src/lib.rs:53-98 | after any prefix of the rewrap loop the rows done are under the active key and every version reads as before |
| Rotation.RotationSucceedsIff | crates/secrets-postgres/src/lib.rs:53-98 | a rewrap succeeds if and only if, for every stale version, its key is held and the one disclosure its envelope opens under is its secret's present one; one that fails changes nothing |
| Rotation.OneDisclosure | crates/secrets-postgres/src/lib.rs:76-84 | a stored version opens under one disclosure at most, so decrypting with the row's present one fails once it changed |
| Rotation.RotationMovesEverything | crates/secrets-postgres/src/lib.rs:53-98 | a successful rewrap leaves every version readable as before and under the active key, reports how many were stale, and leaves none stale |
| Rotation.ResealMovesEverything | crates/secrets-postgres/src/lib.rs:100-121 | a successful reseal drops expired batches and carries every other, payload and actor unchanged, to the active key |
| Rotation.OldKeysNotNeededToRead | crates/secrets-postgres/src/lib.rs:206-225 | over versions carried to the active key, that key alone gives a get the answer the whole keyring gave before |
| Rotation.OldKeysNotNeededToCommit | crates/secrets-postgres/src/lib.rs:314-363 | on tables whose batches are all under the active key, that key alone commits exactly as the whole keyring does |
| AfterRotation.GetsAfterRewrap | crates/secrets-postgres/src/lib.rs:53-231 | after any successful rewrap a get of any reference under the active key alone is the get before it under the whole keyring |
| AfterRotation.GetsAlike | crates/secrets-postgres/src/lib.rs:206-231 | two stores whose versions read alike under every disclosure answer every get alike |
| AfterRotation.AppliesAlike | crates/secrets-postgres/src/lib.rs:341-361 | a batch applied to two stores that read alike is refused alike or leaves stores that read alike, with the same rows logged |
| AfterRotation.CommitsAfterRotation | crates/secrets-postgres/src/lib.rs:53-363 | after a successful rewrap and reseal, a commit under the active key alone answers as the same commit would have before under the whole keyring, logs the same rows, and leaves secrets that read alike and the same batches up to carried envelopes |
| PutDisclosures.SealedPutWith | crates/secrets-postgres/src/lib.rs:123-158 | a version just sealed opens under the disclosure its put named and no other |
| PutDisclosures.NamesComeFromPuts | crates/secrets-postgres/src/lib.rs:123-361 | over every run, the disclosure recorded for a version is one that an answered put, or a put in a committed batch, named for that very version |
| PutDisclosures.RunSigned | crates/secrets-postgres/src/lib.rs:53-382 | over every run, every stored version opens under exactly the disclosure its own put named, through rotations and disclosure changes |
| PutDisclosures.RotationSucceedsIffDisclosuresKept | crates/secrets-postgres/src/lib.rs:53-98 | in every reachable state rotation succeeds if and only if, for every stale version, its key is held and the put that wrote it named the disclosure its secret has now; a failed one changes nothing |
| RotationRuns.ReachableRotationSucceedsIff | crates/secrets-postgres/src/lib.rs:53-98 | in every reachable state, the envelope form of that condition |
| RotationRuns.ChangedDisclosureBlocksRotation | crates/secrets-postgres/src/lib.rs:55-84 | two puts under different disclosures, a concrete run: rotation is refused whatever the row order and draws, and no secret changes |
| RotationRuns.RotationIsFinal | crates/secrets-postgres/src/lib.rs:53-98 | while all writers seal under the active key no version is ever stale again |
| RotationRuns.SecondRewrapReportsZero | crates/secrets-postgres/src/lib.rs:53-98 | over every run whose writers seal under the active key, a rewrap after a successful one, in whatever order it finds rows, reports 0 and changes no secret |
| RotationRuns.ActiveKeyAloneReads | crates/secrets-postgres/src/lib.rs:206-225 | in every related state with all versions under it, the active key alone reads exactly the active cells |
| Batches.HeldComesFromLastPrepare | crates/secrets-postgres/src/lib.rs:264-312 | over every run, what is held under a key is its last prepare's actor, expiry and mutations, and commits never outnumber prepares |
| Batches.CommitAppliesLastPrepare | crates/secrets-postgres/src/lib.rs:283-363 | a successful commit applies exactly the mutations last prepared and not yet committed, strictly before the expiry fixed at that prepare, whatever was resealed or edited in between |
| Batches.NeverCommittedTwice | crates/secrets-postgres/src/lib.rs:314-363 | no batch is applied more often than it was prepared |
| Batches.MutationAnswers | crates/secrets-postgres/src/lib.rs:341-361 | a batch's put comes to what that put alone does, its delete to the removal and its log row or, with nothing there, to a refusal of its own |
| Batches.FirstRefusal | crates/secrets-postgres/src/lib.rs:341-361 | a refused batch is refused for the first of its mutations that is |
| Batches.BatchIsItsMutations | crates/secrets-postgres/src/lib.rs:341-361 | a batch that applies leaves what its puts and deletes leave when run one by one, each of which would have succeeded |
| Batches.CommitAllOrNothing | crates/secrets-postgres/src/lib.rs:314-363 | success leaves what the mutations leave one by one, the batch removed, and the earlier log followed by their rows and one commit row, all in the batch's actor's name; any refusal leaves every table as it was, except that a batch past its sealed expiry is gone |
| Batches.PrepareAnswers | crates/secrets-postgres/src/lib.rs:264-312 | which answer a prepare gets, in the order of its checks; accepted, it adds one row, sealed under the active key with the mutations and the lesser of clock plus lifetime and the largest 64-bit integer as its expiry, column and sealed alike |
| Batches.AbortAnswers | crates/secrets-postgres/src/lib.rs:365-382 | an abort is answered Ok and takes its batch out if and only if it is there, its expiry is ahead and its key is held; otherwise NotFound and nothing changes |
| Batches.PurgeDrops | crates/secrets-postgres/src/lib.rs:36-43 | a purge drops a batch if and only if it is its tenant's and its expiry is not ahead |
| Batches.ResealLeaves | crates/secrets-postgres/src/lib.rs:100-121 | after a reseal a batch is there if and only if its expiry was ahead, with actor and expiry as they were, under the active key and untouched if it already was |
| Batches.ResealAnswers | crates/secrets-postgres/src/lib.rs:100-121 | a reseal that can seal succeeds if and only if the ring holds the key of every stale batch still ahead of its expiry; else it is refused for that and nothing changes |
| Batches.RewrapAnswers | crates/secrets-postgres/src/lib.rs:53-98 | a rewrap that can seal reports how many versions were stale if and only if each can be moved; else it is refused and nothing changes |
| Batches.PreparedIsAborted | crates/secrets-postgres/src/lib.rs:264-382 | a prepared batch is taken out again by an abort exactly before clock plus lifetime and for a ring that holds its key, leaving the tables as before the prepare |
| Batches.CommitAnswers | crates/secrets-postgres/src/lib.rs:314-363 | which answer a commit gets: NotFound for no row or a column expiry not ahead, Unavailable without its key, NotFound past the expiry prepared, else what the mutations held come to on the map |
| AuditTrail.ReplayCounts | crates/secrets-postgres/src/lib.rs:384-400 | a life replayed from the log is the count of its puts, whether it was deleted, and whether its last mark is a revoke |
| AuditTrail.StepTraced | crates/secrets-postgres/src/lib.rs:123-252 | every transaction keeps the rows equal to the replay of the log |
| AuditTrail.AuditDetermines | crates/secrets-postgres/src/lib.rs:129-252 | after every run, for every id: live if and only if it has a put row and no delete row; then its version is the number of put rows, its version rows are exactly 1 to that, and it is revoked if and only if its last put-or-revoke row is a revoke |
| Postgres.Transaction.Put | crates/secrets-postgres/src/lib.rs:123-158 | the statements of a put, one after the other, are the put transaction; a refusal names the first that fails |
| Postgres.Transaction.Delete | crates/secrets-postgres/src/lib.rs:171-191 | the delete statement and its log row are the delete transaction |
| Postgres.Transaction.ApplyAll | crates/secrets-postgres/src/lib.rs:341-360 | the loop over mutations is the fold, up to and including its first refusal |
| Postgres.PostgresStore.Put | crates/secrets-postgres/src/lib.rs:198-204 | an accepted put commits its transaction and answers the stored metadata; a refused one leaves the tables |
| Postgres.PostgresStore.Delete | crates/secrets-postgres/src/lib.rs:233-237 | a refused delete leaves the tables |
| Postgres.PostgresStore.Revoke | crates/secrets-postgres/src/lib.rs:239-252 | answers the metadata after the revoke, committed with its log row |
| Postgres.PostgresStore.PurgeExpired | crates/secrets-postgres/src/lib.rs:36-43 | drops the tenant's batches whose expiry column has passed and no others |
| Postgres.PostgresStore.Prepare | crates/secrets-postgres/src/lib.rs:264-312 | checks before sealing, seals before purging, purges before inserting: which of the three steps have happened at each refusal |
| Postgres.PostgresStore.Commit | crates/secrets-postgres/src/lib.rs:314-363 | the purge, then one transaction that commits whole or is dropped, except for a batch past its sealed expiry, whose removal is committed |
| Postgres.PostgresStore.AbortBatch | crates/secrets-postgres/src/lib.rs:365-382 | removes the batch exactly while its expiry column is ahead and its key is held |
| Postgres.PostgresStore.RewrapRow | crates/secrets-postgres/src/lib.rs:60-93 | one row of the rewrap: resealed from the row's value and logged, or refused |
| Postgres.PostgresStore.RewrapEach | crates/secrets-postgres/src/lib.rs:60-94 | the rewrap loop is the prefix-recursive transaction, up to its first refusal |
| Postgres.PostgresStore.RewrapVersions | crates/secrets-postgres/src/lib.rs:53-95 | the first rotation transaction commits whole or changes nothing |
| Postgres.PostgresStore.ResealEach | crates/secrets-postgres/src/lib.rs:108-119 | the reseal loop is the prefix-recursive transaction, up to its first refusal |
| Postgres.PostgresStore.ResealBatches | crates/secrets-postgres/src/lib.rs:100-121 | the second rotation transaction likewise |
| Postgres.PostgresStore.RewrapAll | crates/secrets-postgres/src/lib.rs:53-98 | both in turn: a refused second one leaves the first done, and the answer says so |
| Http.RefusalTellsTheError | crates/secrets-http/src/lib.rs:389-459 | every store refusal can be told from every other, except an unavailable store from a failed seal; the status says whether something was missing, taken, wrong or down |
| Http.StatusIff | crates/secrets-http/src/lib.rs:389-459 | each status is answered for exactly its own refusals |
| Http.OwnedIff | crates/secrets-http/src/lib.rs:310-326 | the caller's listing holds the reference exactly when its row is of the caller's tenant and subject |
| Http.UserRoutesSeeOwnRows | crates/secrets-http/src/lib.rs:117-181 | two stores that agree on the caller's own rows answer every user route alike, log the same and agree on them again afterwards |
| Http.UserRoutesChangeOwnRows | crates/secrets-http/src/lib.rs:149-181 | a user route taken as one step leaves every row the caller does not own, and every batch |
| Routes.UserListAnswers | crates/secrets-http/src/lib.rs:117-127 | for every caller: a listing has exactly one entry for each row of the caller's tenant and subject, saying field by field what the row holds; a caller that may not is refused for the first thing wrong |
| Routes.UserDetailAnswers | crates/secrets-http/src/lib.rs:128-148 | a detail is the entry for the caller's own row; NotOwned if and only if there is no row or it is another owner's |
| Routes.UserRevokeAnswers | crates/secrets-http/src/lib.rs:149-165 | a revoke of the caller's own row marks it revoked, logs it in the caller's name and answers it so; NotOwned otherwise and nothing changes |
| Routes.UserDeleteAnswers | crates/secrets-http/src/lib.rs:166-181 | a delete of the caller's own row takes it out with its versions, logs it in the caller's name and answers with no content; NotOwned otherwise and nothing changes |
| Routes.WorkloadPutAnswers | crates/secrets-http/src/lib.rs:182-207 | exactly when a put is refused and why; else the row it leaves, its readable value, its log row in the owner's name, the owner defaulting to the caller, and that row as the answer |
| Routes.WorkloadGetAnswers | crates/secrets-http/src/lib.rs:208-221 | in every related state a get reveals the map's value with the row's entry, NotFound when it is not active, 503 without its key |
| Routes.WorkloadExistsAnswers | crates/secrets-http/src/lib.rs:222-237 | exists is whether the row is there and active |
| Routes.WorkloadListAnswers | crates/secrets-http/src/lib.rs:238-253 | a workload's listing has exactly one entry for each row of the tenant and namespace, of any owner, revoked or not |
| Routes.WorkloadDeleteAnswers | crates/secrets-http/src/lib.rs:254-274 | a workload's delete of a row of its tenant takes it out and logs it in the actor's name or else its own |
| Routes.WorkloadPrepareAnswers | crates/secrets-http/src/lib.rs:275-288 | a prepare's own checks come first; then the tenant's expired batches go, and then the insert's answer is the route's |
| Routes.ExpiredIsPreparedAgain | crates/secrets-postgres/src/lib.rs:283-312 | a prepare under an id whose batch has expired takes its place |
| Routes.WorkloadCommitAnswers | crates/secrets-http/src/lib.rs:289-298 | a commit purges the tenant, whatever it then answers, and answers and leaves what the commit on the purged tables does |
| Routes.WorkloadAbortAnswers | crates/secrets-http/src/lib.rs:299-308 | an abort takes the batch out while its expiry is ahead and its key held, else 404 and nothing changes |
| UserRaces.ChangesOwnRowIff | crates/secrets-http/src/lib.rs:149-181 | a delete or revoke whose ownership check and change have any steps between them changes the row the reference has at the change and no other, and that row is the caller's if and only if no step between gave the reference an owner or the last to do so gave it the caller |
| UserRaces.DeletesAnothersRow | crates/secrets-http/src/lib.rs:166-181 | a concrete run in which a checked caller's delete removes a row that another put made someone else's |
| Http.ForeignIsAbsent | crates/secrets-http/src/lib.rs:310-326 | another owner's secret is answered exactly as no secret |
| Http.EffectsNeedActions | crates/secrets-http/src/lib.rs:117-352 | each kind of answer, each removal, change or revocation of a secret, and each batch gained or lost, is for a caller with an action for that effect; an unverified caller changes nothing |
| Tenants.StepStaysIn | crates/secrets-postgres/src/lib.rs:123-382 | a transaction for one tenant answers and leaves what it would on tables holding that tenant alone, and leaves every other tenant's secrets, batches and log as they were |
| Tenants.TenantsStayApart | crates/secrets-http/src/lib.rs:275-308 | over every run, each held batch names its own tenant only, and the step-by-step separation holds |
| Tenants.RunHeldOwnTenant | crates/secrets-postgres/src/lib.rs:274-282 | over every run no held batch names a second tenant |
| Tenants.RequestStaysIn | crates/secrets-http/src/lib.rs:182-359 | the same for whole requests: answered from the caller's tenant alone, changing that tenant alone, and refused when they name another |
| Names.SplitJoins | crates/secrets-core/src/storage.rs:191-197 | the pieces of a split, joined, are the text |
| Names.NameIff | crates/secrets-core/src/storage.rs:146-197 | a text is a secret name exactly when it has at most 128 bytes and every piece between slashes is a segment text; over-long is reported before anything else, then what is wrong with the first piece that is none |
| Names.SegmentIff | crates/secrets-core/src/storage.rs:146-171 | a segment is 1 to 64 bytes, the first of a-z and 0-9 and the rest of those and `._-`; each reason for refusal exactly when that is what is wrong |
| Names.ScopeNameIff | crates/secrets-core/src/storage.rs:236-242 | a scope name is one such segment; its length comes first |
| Names.ScopeNamePlain | crates/secrets-core/src/storage.rs:236-242 | a scope name has 1 to 64 bytes of the segment alphabet, so no slash and no NUL |
| Names.SecretNamePlain | crates/secrets-core/src/storage.rs:191-197 | a secret name has 1 to 128 bytes of that alphabet and slashes |
| Names.ParseAddressMeans | crates/secrets-core/src/storage.rs:369-378 | an address parses exactly when its four parts do; an over-long name is refused first, then the first part that is wrong for its own reason |
| Names.ParseRenameMeans | crates/secrets-core/src/storage.rs:369-415 | a rename parses exactly when its five parts do, to two addresses of one scope; a refusal names the first part that is wrong, for its own reason, and a total length is refused before any grammar |
| Names.BeforeIsStrict | crates/secrets-core/src/storage.rs:171-175 | byte order of names is a strict total order |
| Names.BeforeIff | crates/secrets-core/src/storage.rs:173-176 | one name is before another exactly when it is a proper start of it or has the lesser byte where they first differ |
| AddressCodecs.DecodeUserIff | crates/secrets-keychain/src/lib.rs:59-82 | a keychain user decodes to an address exactly when it is that address's own text, slashes in the name included |
| AddressCodecs.EntryUserInjective | crates/secrets-keychain/src/lib.rs:59-65 | no two addresses share an entry |
| AddressCodecs.AddressOfIff | crates/secrets-remote/src/lib.rs:51-74 | a custody reference holds an address of the scope exactly when it is that address's reference |
| AddressCodecs.ReferenceInjective | crates/secrets-remote/src/lib.rs:51-57 | no two addresses share a reference |
| AddressCodecs.ReferenceAccepted | crates/secrets-postgres/src/lib.rs:443-455 | custody accepts every address's reference, and its key has at most 193 bytes |
| AddressCodecs.LongestKey | crates/secrets-core/src/storage.rs:191-242 | some address's key has 193 bytes |
| ValueBound.Base64Size | crates/secrets-remote/src/lib.rs:85-88 | base64 of n bytes is 4*ceil(n/3) characters, none of which JSON escapes (section 4 of RFC 4648) |
| ValueBound.Base64RoundTrip | crates/secrets-remote/src/lib.rs:85-88 | the base64 of a value decodes to it under the standard alphabet (section 4 of RFC 4648) |
| ValueBound.EscapeRoundTrip | crates/secrets-remote/src/lib.rs:88-105 | an escaped text is legal JSON string content and reads back as the text (section 7 of RFC 8259) |
| ValueBound.RenderSize | crates/secrets-remote/src/lib.rs:88-105 | the JSON text of a value whose texts need no escape has the counted size |
| ValueBound.TheBound | crates/secrets-remote/src/lib.rs:77-105 | the envelope is 1007 bytes and the bound 785,676 |
| ValueBound.AcceptedValueFits | crates/secrets-remote/src/lib.rs:77-242 | every value of at most the bound fits 1 MiB as the write and as any later rename at any legal names |
| ValueBound.OneByteMoreOverflows | crates/secrets-remote/src/lib.rs:77-105 | with every name at its bound one byte more does not fit |
| ValueBound.RevealableRenameOverflows | crates/secrets-remote/src/lib.rs:217-226 | a user-revealable record at the bound, which the client never writes itself, cannot be renamed at the widest names |
| Wire.NamedRequestsFit | crates/secrets-remote/src/lib.rs:161-204 | a get, exists, list or delete of any legal address fits the service's limit |
| Wire.OwnPutFits | crates/secrets-remote/src/lib.rs:176-194 | so does a put of any value within the bound |
| Wire.LabelsWritten | crates/secrets-remote/src/lib.rs:106-122 | a put writes every label once, under its own name, and nothing else |
| Wire.RenameFits | crates/secrets-remote/src/lib.rs:206-235 | a rename's prepare fits exactly when the two-mutation body of the stored value, disclosure and labels does |
| Port.Capabilities | crates/secrets-core/src/storage.rs:432-437 | a kind that can change what it holds can list it |
| Port.SortedRows | crates/secrets-core/src/storage.rs:614-619 | sorting keeps the rows and puts rows of distinct names in strict order |
| Port.RowsList | crates/secrets-core/src/storage.rs:614-619 | rows of distinct names, all of a scope's part of the map and all of it, are once sorted exactly its listing, in order and each once |
| Port.ListsOneWay | crates/secrets-core/src/storage.rs:614-619 | a scope of a map has one listing |
| Port.InOrder | crates/secrets-core/src/storage/testing.rs:213-225 | walking an ordered map filtered to a scope is exactly the scope's listing |
| Port.RecordingBackend.Preload | crates/secrets-core/src/storage/testing.rs:92-98 | the locator holds the value under a new count |
| Port.RecordingBackend.Read | crates/secrets-core/src/storage/testing.rs:147-161 | reads by address, or by bound locator on a read-only backend; recorded in every case |
| Port.RecordingBackend.Write | crates/secrets-core/src/storage/testing.rs:163-183 | the address holds the value under a version nothing had; created or replaced as it was absent or held |
| Port.RecordingBackend.Delete | crates/secrets-core/src/storage/testing.rs:185-193 | takes the address out or finds nothing |
| Port.RecordingBackend.Rename | crates/secrets-core/src/storage/testing.rs:195-211 | moves value and version, or refuses with the destination looked at first and nothing changed |
| Port.RecordingBackend.List | crates/secrets-core/src/storage/testing.rs:213-225 | exactly the scope's addresses and versions, in order, each once |
| Keychain.OpenBlobIff | crates/secrets-keychain/src/lib.rs:105-115 | an entry opens if and only if it has the format byte and a whole identifier; the rest is the value |
| Keychain.HyphenatedForm | crates/secrets-keychain/src/lib.rs:96-115 | a version is its identifier's text form (section 4 of RFC 9562) |
| Keychain.OpensAsSealed | crates/secrets-keychain/src/lib.rs:96-115 | a stored entry opens to its version and value |
| Keychain.HyphenatedInjective | crates/secrets-keychain/src/lib.rs:96-103 | two identifiers never share a version text |
| Keychain.NewVersionIsNew | crates/secrets-keychain/src/lib.rs:96-103 | a rewrite under a new identifier changes the version, same value or not |
| Keychain.ReadsTheMap | crates/secrets-keychain/src/lib.rs:205-217 | over entries this backend stored, a read is the plain map's |
| Keychain.RowsListVault | crates/secrets-keychain/src/lib.rs:270-301 | whatever else the search brings up, filtered, decoded and sorted it is exactly the scope's part of the map |
| Keychain.KeychainBackend.Read | crates/secrets-keychain/src/lib.rs:205-217 | with no fault the entry's value and version, NotFound or the layout's refusal; with one, Unavailable |
| Keychain.KeychainBackend.Write | crates/secrets-keychain/src/lib.rs:219-234 | answered Ok, the map gains the value under the new version, created or replaced as it was; failed, nothing changed |
| Keychain.KeychainBackend.Delete | crates/secrets-keychain/src/lib.rs:236-243 | the map's delete, or a fault and nothing changed |
| Keychain.KeychainBackend.Rename | crates/secrets-keychain/src/lib.rs:245-268 | Ok means the entry moved as it was; any error leaves the value under its old name; a second copy stays only if the delete and its undo both failed; no other entry changes; with no fault it is the map's rename |
| Keychain.KeychainBackend.List | crates/secrets-keychain/src/lib.rs:270-301 | an answered listing is exactly the scope's secrets, in order and each once |
| Remote.VersionTextInjective | crates/secrets-remote/src/lib.rs:132-136 | a version text names one record id and version |
| Remote.HoldsOneMap | crates/secrets-remote/src/lib.rs:161-174 | custody whose addressed records are all readable and none revoked holds exactly one address-to-value map |
| Remote.BatchMoves | crates/secrets-remote/src/lib.rs:206-230 | the rename's two mutations applied move the record whole: value, disclosure and labels at the new reference, nothing at the old, every other row as it was |
| Remote.CommitMoves | crates/secrets-remote/src/lib.rs:231-242 | a commit of what a rename prepared moves the record whole or leaves every secret, and succeeds when in time and accepted |
| Remote.MoveHolds | crates/secrets-remote/src/lib.rs:206-242 | such a move is the address's move in the map; only the version is new |
| Remote.RowsListHeld | crates/secrets-remote/src/lib.rs:244-264 | what the service returns, filtered, decoded and sorted, is exactly the scope's part of the map |
| Remote.RowsListActive | crates/secrets-remote/src/lib.rs:244-264 | whatever custody holds, revoked records included, it is exactly the scope's active records |
| Remote.RenameRefines | crates/secrets-remote/src/lib.rs:206-242 | with no loss and nothing in its way a rename is the plain map's rename, with either refusal when both hold; only a record whose body is over the service's limit is refused Denied where the map would move it, and stays |
| Remote.OwnRecordFits | crates/secrets-remote/src/lib.rs:28-31 | a record this backend wrote is never over that limit, whatever name it is renamed to |
| Remote.RenameKeepsOwn | crates/secrets-remote/src/lib.rs:206-242 | and stays such a record through a rename, under every pattern of losses |
| Remote.RevealableStays | crates/secrets-remote/src/lib.rs:206-235 | a concrete user-revealable record another client put, within the bound, is read and refused its rename |
| Remote.Service.Send | crates/secrets-client/src/lib.rs:140-175 | one exchange: over the body limit refused with 413 before it is looked at, else handled and answered; or lost on the way there, on the way back, or failed and rolled back |
| Remote.RemoteBackend.Read | crates/secrets-remote/src/lib.rs:161-174 | the map's read, or Unavailable when an exchange went wrong; no secret changes |
| Remote.RemoteBackend.Write | crates/secrets-remote/src/lib.rs:176-194 | above the bound TooLarge with no request; answered Ok, the map's write; unanswered, made whole or not at all; what it writes is a record the bound covers |
| Remote.RemoteBackend.Delete | crates/secrets-remote/src/lib.rs:196-204 | answered, the map's delete; unanswered, made or not; refused otherwise, nothing changed |
| Remote.RemoteBackend.Move | crates/secrets-remote/src/lib.rs:217-242 | the batch of a rename, prepared and committed, is all or nothing under every pattern of losses; with none it is Denied when too wide and moves the record when in time and accepted |
| Remote.RemoteBackend.Rename | crates/secrets-remote/src/lib.rs:206-242 | for every pattern of lost requests and responses custody's secrets are unchanged or the record moved whole; Ok implies moved; an error other than Unavailable implies unchanged |
| Remote.RemoteBackend.List | crates/secrets-remote/src/lib.rs:244-264 | an answered listing is exactly the scope's active records, in order and each once; the map's listing where custody holds the map |
| Config.InMemoryConfig.NamespaceBound | crates/secrets-federation/src/config.rs:174-178 | true exactly when some address of the namespace, of any user, is bound |
| Config.InMemoryConfig.AddNamespace | crates/secrets-federation/src/config.rs:143-150 | Conflict on an existing key, else exactly that key added |
| Config.InMemoryConfig.DropNamespace | crates/secrets-federation/src/config.rs:152-158 | NotFound or exactly that key removed |
| Config.InMemoryConfig.Remount | crates/secrets-federation/src/config.rs:160-168 | NotFound or exactly that key's mount changed |
| Config.InMemoryConfig.Bind | crates/secrets-federation/src/config.rs:180-187 | Conflict on a bound address, else exactly that binding added |
| Config.InMemoryConfig.Unbind | crates/secrets-federation/src/config.rs:189-195 | NotFound or exactly that binding removed |
| Config.InMemoryConfig.Perform | crates/secrets-federation/src/config.rs:116-195 | any operation replies and changes the settings as the store's reply and settings functions say; an unreachable store changes nothing |
| Config.ChangedIff | crates/secrets-federation/src/config.rs:143-195 | which changes of the records are in conflict, which miss what they name, and exactly what the others leave |
| Document.NamespaceIff | crates/secrets-federation/src/file.rs:56-63 | a value is read as a namespace record if and only if it has a tenant, a name, a mount by kind and label or none, and no other key; and is written so |
| Document.BindingIff | crates/secrets-federation/src/file.rs:65-73 | a value is read as a binding if and only if it is the address part by part and the locator; and is written so |
| Document.ParseIff | crates/secrets-federation/src/file.rs:105-137 | a file is read if and only if it is a table whose two arrays hold good records of distinct keys; then the store has what they say and the default namespace, and keeps every other key |
| Document.RoundTrip | crates/secrets-federation/src/file.rs:105-172 | reading a rendered document gives it back, in whatever order its maps were walked, and every key the store does not own is in the text as it was |
| Document.ParsedIsWellFormed | crates/secrets-federation/src/file.rs:105-137 | every document read holds the default namespace and keeps the owned keys out of the rest |
| Document.GatherIff | crates/secrets-federation/src/file.rs:108-131 | records are read exactly when each is good and no two have one key, and then the map holds exactly what they say |
| Document.ReadRecords | crates/secrets-federation/src/file.rs:108-131 | the loop over an array of records is the gathering that refuses a bad record or a repeated key |
| Document.Read | crates/secrets-federation/src/file.rs:105-137 | the imperative reading is the parse the round trip is about |
| FileConfig.MissingFileIsLocal | crates/secrets-federation/src/file.rs:198-204 | a missing file is namespace `default` on the default mount and nothing else |
| FileConfig.OpenDocument.InsertNamespace | crates/secrets-federation/src/file.rs:306-314 | makes the in-memory insertion of the document's namespaces |
| FileConfig.OpenDocument.RemoveNamespace | crates/secrets-federation/src/file.rs:316-328 | refuses the local default with Conflict, else makes the in-memory removal |
| FileConfig.OpenDocument.SetMount | crates/secrets-federation/src/file.rs:330-339 | makes the in-memory mount change |
| FileConfig.OpenDocument.InsertBinding | crates/secrets-federation/src/file.rs:351-359 | makes the in-memory insertion of the document's bindings |
| FileConfig.OpenDocument.RemoveBinding | crates/secrets-federation/src/file.rs:361-369 | makes the in-memory removal |
| FileConfig.FileConfig.NamespaceBound | crates/secrets-federation/src/file.rs:345-349 | true exactly when some address of the namespace, of any user, is bound in the file |
| FileConfig.FileConfig.Perform | crates/secrets-federation/src/file.rs:262-369 | any operation of the file store that meets no fault operates on its file as one step of the store's relation of files and replies |
| FileConfig.FileIsMemory | crates/secrets-federation/src/file.rs:262-369 | one operation on a readable file replies as the in-memory store would and leaves a file that reads as its state, except a removal of the local default, which is refused and changes nothing |
| FileConfig.FileRunIsMemoryRun | crates/secrets-federation/src/file.rs:262-369 | over every run of operations the file reads as the in-memory store run from its settings, unowned keys kept, and every reply is that store's, except that a removal of the local default is a conflict and is skipped |
| FileConfig.FileConfig.Change | crates/secrets-federation/src/file.rs:208-228 | the answer for every fault, file and change: the file reads as after the change exactly when the staged file was new, written and renamed, and Ok exactly when the directory was synced too; anything refused earlier writes nothing; unowned keys survive |
| FileConfig.FileConfig.Replace | crates/secrets-federation/src/file.rs:262-286 | the file is the old one until the rename and the whole new one after it; a failure before it leaves no staged file |
| FileRuns.StepKeepsSound | crates/secrets-federation/src/file.rs:198-286 | one step of any process leaves the file as it was, except a rename by the lock's holder, which makes it that holder's change of what it was |
| FileRuns.RunIsLinearizable | crates/secrets-federation/src/file.rs:198-286 | over every run of any number of processes, crashes anywhere: the file reads as the changes that took effect, in lock order; every answer is the sequential store's at its point; unowned keys are as they were |
| FileRuns.AtomicUnderLock | crates/secrets-federation/src/file.rs:208-228 | from taking the lock to losing it, by answer or crash, the file is as before or as after the holder's one change |
| FileRuns.ChangeAlone | crates/secrets-federation/src/file.rs:198-286 | a process with nobody in its way makes its change, answers it and frees the lock, or answers what is wrong and leaves the file; nothing stays staged |
| FileRuns.FirstChange | crates/secrets-federation/src/file.rs:198-286 | so the first run of one change makes it |
| FileRuns.FailureLeaves | crates/secrets-federation/src/file.rs:262-286 | a failure before the rename leaves the file, frees the lock and takes away the staged file if it can |
| FileRuns.CrashFrees | crates/secrets-federation/src/file.rs:208-228 | a crash frees the lock and leaves the file and every other process as they were |
| FileRuns.BadFileStays | crates/secrets-federation/src/file.rs:31-35 | a file that does not parse is answered Unavailable to every change and never written |
| Federation.CommandKeepsNoOrphans | crates/secrets-federation/src/lib.rs:106-246 | every command, whether it works, fails, goes unanswered or is a rename left half done, keeps each held secret in the one backend its existing namespace is mounted on and each binding in an existing namespace |
| Federation.RunKeepsNoOrphans | crates/secrets-federation/src/lib.rs:106-246 | so does every run of commands |
| Federation.AddRemoveKeepReadable | crates/secrets-federation/src/lib.rs:106-138 | adding or removing a namespace changes no address's readable value: none is lost and none comes back |
| Federation.RemountReadableIff | crates/secrets-federation/src/lib.rs:146-161 | pointing a namespace elsewhere keeps every held secret readable, and keeps the whole readable map if and only if both mounts read alike behind each of its bindings |
| Federation.UnboundRemountKeepsReadable | crates/secrets-federation/src/lib.rs:146-161 | with no bindings, or no mount of the two reading through them, the readable map is unchanged |
| Federation.RemountCanReveal | crates/secrets-federation/src/lib.rs:146-161 | a concrete accepted remount after which a bound name starts to read |
| Federation.WithoutAuthorizerOrphaned | crates/secrets-federation/src/lib.rs:229-245 | without the authorizer a secret written for another user is orphaned by the removal that follows |
| Federation.WithoutListingOrphaned | crates/secrets-federation/src/lib.rs:236-238 | a backend that is writable and cannot list lets a removal orphan a secret, authorizer or not |
| Federation.PortIsTheMap | crates/secrets-federation/src/lib.rs:276-307 | through the port a write, delete or rename changes what is readable exactly at its own addresses and moves no binding |
| Federation.SecretAnswers | crates/secrets-federation/src/lib.rs:192-307 | which answer a write, delete or rename gets: denied, no registered mount, a capability lacking, a binding lacking, and then made, NotFound or Conflict exactly when the names are bound, held or not |
| Federation.HeldIsReadable | crates/secrets-federation/src/lib.rs:192-279 | where the mount reads by address what it holds is what is readable |
| Federation.ReadAnswers | crates/secrets-federation/src/lib.rs:192-279 | which answer a read gets, value and version included |
| Federation.ManageAnswers | crates/secrets-federation/src/lib.rs:106-183 | a namespace or binding command is denied, in conflict, misses what it names or is made, each if and only if so said of records, mounts and held secrets; made, the records are the ones named, and otherwise nothing changes |
| Federation.DecideIff | crates/secrets-core/src/authorize.rs:121-136 | the tenant decides first, then the user; only `default` passes either |
| Federation.LuckMeans | crates/secrets-federation/src/lib.rs:106-307 | a command that fails has no effect and one that goes unanswered has its own, each answered with the fault; the default namespace's removal is refused before anything can fail |
| Federation.HalfDoneKeepsBoth | crates/secrets-federation/src/lib.rs:293-307 | a rename left half done has its value under both names and every other address as it was |
| Federation.DeniedChangesNothing | crates/secrets-core/src/authorize.rs:121-136 | a denied scope is answered Denied, and reaches nothing, whatever is stored and whatever would fail |
| Federation.FederatedStorage.WithBackend | crates/secrets-federation/src/lib.rs:71-81 | a second registration under one reference is refused and replaces nothing |
| Federation.FederatedStorage.AddNamespace | crates/secrets-federation/src/lib.rs:106-117 | the checks in order, then the store's insert |
| Federation.FederatedStorage.HoldsAny | crates/secrets-federation/src/lib.rs:232-245 | true exactly when the current mount is registered, can list, and lists something for user `default`; a listing that fails is an error |
| Federation.FederatedStorage.RemoveNamespace | crates/secrets-federation/src/lib.rs:125-138 | `default` is refused before the store is asked; else the checks in order, a failing listing passed on, then the removal |
| Federation.FederatedStorage.SetMount | crates/secrets-federation/src/lib.rs:146-161 | the checks in order, a failing listing passed on, then the mount |
| Federation.FederatedStorage.ResolveTarget | crates/secrets-federation/src/lib.rs:192-227 | namespace, registered mount, capabilities, then the bound locator where one is required |
| Federation.FederatedStorage.Bind | crates/secrets-federation/src/lib.rs:168-174 | only in an existing namespace |
| Federation.FederatedStorage.Unbind | crates/secrets-federation/src/lib.rs:181-183 | only a bound address |
| Federation.FederatedStorage.Read | crates/secrets-federation/src/lib.rs:276-279 | the one backend's answer, value and version, or its fault |
| Federation.FederatedStorage.Write | crates/secrets-federation/src/lib.rs:281-284 | the one backend's write, created or replaced as it was, under every fault |
| Federation.FederatedStorage.Delete | crates/secrets-federation/src/lib.rs:287-290 | removes the secret, never its binding, under every fault |
| Federation.FederatedStorage.Rename | crates/secrets-federation/src/lib.rs:293-307 | refused when either name is bound; else moved, not moved, or left under both names, as the backend's faults have it |
| Federation.Authorized.Read | crates/secrets-core/src/authorize.rs:189-192 | denied before the storage below is reached, configuration down or not; otherwise exactly that storage's answer and effect, faults included |
| Federation.Authorized.Write | crates/secrets-core/src/authorize.rs:194-197 | denied before the storage below is reached, configuration down or not; otherwise exactly that storage's answer and effect, faults included |
| Federation.Authorized.Delete | crates/secrets-core/src/authorize.rs:199-202 | denied before the storage below is reached, configuration down or not; otherwise exactly that storage's answer and effect, faults included |
| Federation.Authorized.Rename | crates/secrets-core/src/authorize.rs:204-208 | denied before the storage below is reached, configuration down or not; otherwise exactly that storage's answer and effect, faults included |
| Out.Prepare | crates/secretsctl/src/out.rs:53-99 | makes one new private temporary file exactly when nothing is at the path, it names a file and nothing of the system's is in the way; else says which, and changes nothing |
| Out.Pending.Commit | crates/secretsctl/src/out.rs:112-131 | the target gains all the bytes, or is as it was, and the temporary file is gone either way; something already there is kept and refused |
| Out.PublishedAlone | crates/secretsctl/src/out.rs:53-131 | with nobody in the way a value written in full is linked into place exactly when nothing is there, and the temporary file is gone either way |
| Out.PublishedWhole | crates/secretsctl/src/out.rs:53-131 | in every run beside other processes, stopping anywhere, this process changes no path but its two, and the target at most once, from absent to the whole value |

## Left out

- Concurrent first puts at one reference, row locks and isolation below one transaction: each transaction is one atomic step.
- Version rows as a table of their own: they lie in their secret's row, to which the foreign key ties them, and go with it.
- Timestamps, `updated_at` order of listings and created/updated fields: listings are sets on the service's side.
- Rounding of expiries to floating point and the range of `to_timestamp`: times are reals and expiries integers.
- A reference or actor with NUL in a query other than put: PostgreSQL refuses it as unavailable, the model finds nothing.
- A current version of the largest 64-bit integer: its put is refused as unavailable, the addition's overflow is not modelled.
- Row decoding failures, JSON and TOML texts and key derivation: payloads, labels and records are values; a batch is its expiry and mutations.
- TOML records written as arrays instead of tables, and a document that cannot be rendered.
- Token verification, header and body parsing, middleware, probes and request ids: a caller arrives verified, unknown or with its authority down.
- Http.UserRoutesChangeOwnRows: takes the check and the change as one step; `UserRaces.ChangesOwnRowIff` has them apart. The tenant theorems hold for each transaction by itself.
- Request bodies written otherwise than this client writes them, with more white space or other escapes: the limit is applied to the client's own text.
- Concurrent federation commands: no-orphan and readable-map claims are for commands one after another.
- A backend that is mounted but not registered in this process and is registered again later.
- The listing of all namespaces, and listings through routing, which only drop rows of another scope.
- Runs of the remote backend over custody with revoked records: custody's delete removes one that a read no longer finds.
- Other writers during a remote rename, and the batch that an unreachable service leaves behind until it expires.
- Poisoned locks, file modes, symlink flags and fsync beyond what rename and hard link guarantee.
- The commands' parsing and printing, the native keychain stores, 1Password's own reading and the documentation site.
