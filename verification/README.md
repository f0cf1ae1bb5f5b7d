# akuapkg in Dafny

akuapkg is a package manager for Kubernetes packages. What it promises is about
digests, signatures, budgets and byte-exact files: a lock never claims a
signature that was not checked, a render never spends more than its budget,
and what one command writes the next command reads back. This project models
the code behind those promises and proves them for every input, every run and
every interleaving.

| module | source | what it is about |
|---|---|---|
| `Lockfile`, `LockText` | `host/src/lockfile.ts` | which locks parse, what a merge writes, the lock as text |
| `Der` | `host/src/cosign.ts` | ECDSA signatures between raw bytes and DER |
| `Oci`, `OciServed` | `host/src/oci.effect.ts` | OCI pulls, and exactly when they succeed |
| `Trust`, `TrustFiles`, `TrustVersions`, `ProvenanceText` | `host/src/dependencies.effect.ts`, `host/src/crds.effect.ts`, the `lock`, `update`, `vendor add` and `remove` verbs | resolution and runs of commands over one workspace: signatures, digests and files |
| `TrustPins`, `TrustFetch` | `host/src/dependencies.effect.ts`, `host/src/helm-repository.effect.ts`, `host/src/git.effect.ts`, `host/src/url-source.effect.ts` | which lock entry a resolution goes by, and what sources give |
| `TrustRecords`, `TrustReplay`, `TrustEdits` | the same verbs, `host/src/lockfile.ts` | what each command writes, and what the next resolution makes of it |
| `EngineBudget` | `host/src/host-native.effect.ts` | engine calls on one fuel budget |
| `Packages`, `Composition` | `host/src/worker.effect.ts`, `host/src/plugins.effect.ts`, `host/src/contract.ts` | preparing Packages, nested renders, the failure that surfaces |
| `TomlText`, `TomlGrammar`, `TomlReplay`, `TomlDocument`, `TomlMeaning` | `host/src/toml-write.ts` | the TOML writer against a reader of TOML v1.0.0 |
| `Utf8`, `WebUtf8`, `Paths`, `Pax`, `PaxLists`, `TarHeader`, `Tar`, `TarForeign` | `host/src/archive.ts` | tar and PAX: written, read back, and read from other programs |
| `CrdSchemas`, `CrdCorrect` | `host/src/crd-schemas.ts` | the CRD-to-KCL compiler against a translation without names |
| `CrdMeaning`, `CrdExact`, `CrdRoots` | `host/src/crd-schemas.ts` | which values an OpenAPI schema and its KCL type admit |
| `Secrets` | `cli/src/api/inputs.ts` | which inputs are secret |
| `Contract` | `cli/scripts/generate-contract.ts` | the definitions a contract needs |
| `CacheInstall` | `host/src/downloads.effect.ts` | processes racing to fill a cache slot |
| `DeviceLogin` | `cli/src/cli/auth.ts` | polling for a device token |
| `Common`, `Decimal` | | shared vocabulary; numerals |

Code that works by changing things is modelled that way: `OciRegistry`,
`NativeHost`, `Renderer`, `TomlWriter`, `PackageEmitter` and `Seen` are classes
whose methods are proved equal to a function of their old state, and the loops
of `archive.ts`, `toml-write.ts`, `lockfile.ts`, `cosign.ts`,
`worker.effect.ts` and `generate-contract.ts` are loops. The properties are
lemmas about those functions. Foreign code (hashing, signature arithmetic,
unpacking, UTF-8, KCL guests, registries, clocks, the scheduler) is a parameter
that may do anything its laws allow. `State.log` in `Trust`, and `started` and
`failures` in `Composition.Budget`, record what happened; the program does not
read them.

Ten promises hold only under a condition. Each is proved to hold exactly
under it, and where the exception is not plain from the condition a lemma gives
an input that breaks it:

- A merge into a lock that `parseLock` accepts is accepted again exactly when
  the entries it keeps repeat no key: only neighbours are compared, and sorting
  makes repeated keys neighbours. A refused lock counts as empty in the next
  command (`Lockfile.MergeIsAcceptedExactly`, `Lockfile.RefusedMergeExample`).
- Lock entries carry digests that were offered at their own source and version
  exactly as long as no `vendor add` finds, by name and prefix, a cached entry of
  another source or version whose digest was not offered at the new one too: its
  bytes are then recorded for the new one
  (`TrustVersions.VendorPlacesExactly`, `TrustVersions.RunsKeepEntriesPlaced`,
  `TrustVersions.StrayPinExample`).
- `remove` leaves a lock that parses exactly when it prunes nothing or the
  entries of other names repeat no key (`TrustEdits.RemoveIsAcceptedExactly`,
  `TrustEdits.RefusedRemoveExample`).
- After `lock` wrote a lock that parses, an offline `render` resolves everything
  again from the caches exactly when each URL dependency's file is in the slot of its digest: a slot
  that was filled for another URL with the same content has that URL's file name
  only (`TrustReplay.OfflineReplaysTheLock`).
- A generated KCL type, and the root of each kind, admits exactly the values its
  OpenAPI schema does if and only if every keyword of the schema is one KCL types
  can say. Valid values are rejected only where a schema without a type has
  properties, a schema for other fields, or keeps unknown ones
  (`CrdExact.ExactExactly`, `CrdRoots.RootsAreExact`, `CrdRoots.UntypedRejectsText`).
- A git fetch is exact under its pin only if the pin starts with `git:`.
  `parseLock` also accepts a `sha256:` digest there, and the fetch drops it
  (`Trust.PinnedFetchIsExact`, `Trust.IgnoredPinExample`).
- A path over 100 bytes comes back from a tar archive unchanged only if it is
  ASCII: the reader counts characters where the length counts bytes
  (`Tar.TarRoundTripExactly`, `Tar.LongAccentedPath`).
- A DER signature of exactly 64 bytes is taken for a raw one
  (`Der.SelectRawExactly`, `Der.TakenForRawExample`).
- A component named like a member every JavaScript object inherits counts as
  already collected, and is not missed (`Contract.PromiseHoldsExactly`,
  `Contract.MissingIsNoticedExactly`, `Contract.InheritedNameExample`,
  `Contract.MissingUnnoticedExample`).
- The search for secret inputs, where none is reachable, ends exactly when
  every reference met below the schema asked about ends; a reference to itself
  never does (`Secrets.TerminatesExactly`, `Secrets.SelfReferenceNeverEnds`).

Values of custom resources are JSON values; a member that is null counts as
absent and there is no other null. A KCL float admits integers, and what
`ObjectMeta` admits is a parameter.

One more fact shapes a statement: only typed failures drop a live engine
instance, so after a defect the next request runs on the same one
(`EngineBudget.LiveExactlyUnlessFailed`).

## Model

| member | source | states |
|---|---|---|
| `Lockfile.BeforeOrder` | host/src/lockfile.ts:92-93 | the comparator is a strict total order on (name, version) |
| `Lockfile.SortedIsCanonical` | host/src/lockfile.ts:174 | a strictly sorted lock is determined by its set of entries |
| `Lockfile.ParseLock` | host/src/lockfile.ts:50-73 | accepts exactly the locks of version 1 in which no entry has a problem, and names a problem some entry really has |
| `Lockfile.AcceptedMayRepeat` | host/src/lockfile.ts:56-65 | a lock with a repeated (name, version) pair that is accepted, because only neighbours are compared |
| `Lockfile.MergeIntoLock` | host/src/lockfile.ts:144-175 | the filter and the loop of slot assignments and pushes compute the merge specification |
| `Lockfile.MergeMeaning` | host/src/lockfile.ts:144-175 | for every lock, repeated keys included: a merge is in order and holds exactly the entries of names no update has, one entry per update made from the first entry with its key, and the further repetitions of such a key |
| `Lockfile.MergeRecords` | host/src/lockfile.ts:136-170 | after a merge every update has an entry with its name, version, source, digest, fork and schema digest, and with the other fields of the first entry of that key if and only if the digest is the same |
| `Lockfile.MergeRecordsOnly` | host/src/lockfile.ts:136-170 | where its name and version are in the lock at most once, it is the only entry of its name afterwards |
| `Lockfile.NoLeftovers` | host/src/lockfile.ts:144-175 | those repetitions occur only in a lock that repeats a key |
| `Lockfile.MergeIsAcceptedExactly` | host/src/lockfile.ts:43-175 | a merge into an accepted lock is accepted again exactly when the entries it keeps repeat no key |
| `Lockfile.RefusedMergeExample` | host/src/lockfile.ts:56-65 | an accepted lock whose merge, whatever else is updated, is refused |
| `Lockfile.MergeIsAccepted` | host/src/lockfile.ts:144-175 | so a merge that keeps no repeated key is accepted, strictly sorted and without repeated keys |
| `Lockfile.UniqueLockMerges` | host/src/lockfile.ts:144-175 | a lock without repeated keys: its merges parse, repeat no key, and hold the entries of other names and what the updates wrote, no more |
| `Lockfile.OneEntryPerUpdate` | host/src/lockfile.ts:136-142 | for every lock: other names keep their number of entries, and an updated name has exactly one unless the lock repeated the key, then as many as it had |
| `Lockfile.MergeIdempotent` | host/src/lockfile.ts:144-175 | for every lock, merging the same updates again changes nothing |
| `Lockfile.SortPrevious` | host/src/lockfile.ts:174-174 | the sort is stable: the first entry with a key stays the first |
| `Lockfile.PinnedEntries` | host/src/lockfile.ts:76-79 | selects exactly the entries with a remote source, or exactly the OCI ones |
| `LockText.EntryDecodes` | host/src/lockfile.ts:14-32 | the table written for an entry decodes to that entry, an empty list of dependencies becoming none |
| `LockText.LockRoundTrip` | host/src/lockfile.ts:96-119 | for every lock, the written body read as TOML and decoded gives the same version and the same entries, sorted |
| `LockText.FormatRoundTrip` | host/src/lockfile.ts:88-122 | so does the text on disk, with the comments in front, for every CLI name without control characters |
| `LockText.MergedLockReadsBack` | host/src/lockfile.ts:43-175 | a merged lock, written to disk with its header and read again, holds the merged entries, and is accepted, so that the next command does not start from an empty lock, exactly when the merge kept no repeated key |
| `Der.IntegerToDer` | host/src/cosign.ts:124-130 | the loop writes the INTEGER of the specification |
| `Der.RawToDer` | host/src/cosign.ts:123-134 | writes the SEQUENCE of the specification |
| `Der.DerToRaw` | host/src/cosign.ts:26-48 | the reading loop computes the decoding specification on every input, malformed ones included |
| `Der.EncodeIntegerMeaning` | host/src/cosign.ts:124-130 | the INTEGER written denotes the number its bytes hold, in the minimal form of section 8.3 of ITU-T X.690 |
| `Der.ShortForm` | host/src/cosign.ts:123-134 | all three length bytes stay below 0x80 and add up |
| `Der.SignatureRoundTrip` | host/src/cosign.ts:26-48 | decoding an encoded signature gives back the same 64 bytes |
| `Der.DecodeExactly` | host/src/cosign.ts:26-48 | on every input, well-formed or not: decoding gives 64 bytes exactly when two INTEGERs follow a SEQUENCE tag and denote the numbers of the two halves |
| `Der.SelectRawExactly` | host/src/cosign.ts:62-62 | the length-64 test recovers the signature exactly when the two INTEGER bodies do not total 58 bytes |
| `Der.TakenForRawExample` | host/src/cosign.ts:62-62 | a signature whose encoding is taken for another signature |
| `Der.EncodedIsNotRaw` | host/src/cosign.ts:123-134 | no signature equals its own encoding |
| `Oci.FindLayer` | host/src/oci.effect.ts:777-783 | finds a layer of the wanted types exactly when there is one |
| `Oci.VerifySignature` | host/src/oci.effect.ts:463-512 | success means the key signed a payload that names this manifest |
| `Oci.FetchSound` | host/src/oci.effect.ts:392-454 | a download is addressed by its digest, equals the pin, and under a key comes with evidence for that digest |
| `Oci.PullSound` | host/src/oci.effect.ts:358-454 | whatever the registry serves: the cache stays content-addressed, a pin is met exactly, and with a key the result carries its reference and a digest it verified |
| `Oci.OciRegistry.PullInto` | host/src/oci.effect.ts:358-454 | the stateful pull leaves the result, the cache and the checks the specification says |
| `OciServed.SelectedIsChosen` | host/src/oci.effect.ts:776-788 | the layer taken is the first of the preferred kind that is there: Helm, akua, annotated KCL, and last, if allowed, a lone tar archive |
| `OciServed.SignedExactly` | host/src/oci.effect.ts:463-512 | a signature check succeeds exactly when the sidecar's first cosign layer carries a signature by the key of a payload that names this manifest |
| `OciServed.FetchExactly` | host/src/oci.effect.ts:392-454 | a download succeeds with a digest and a tree exactly when the registry serves them: chosen layer, size, signature, pin, hash, and the tar unzipped unless it is plain |
| `OciServed.PullExactly` | host/src/oci.effect.ts:358-454 | a pull with nothing cached under its pin succeeds exactly when the artifact is served, installs its digest, and leaves other slots and a slot that is there alone |
| `Trust.FetchSourceSound` | host/src/dependencies.effect.ts:397-496 | every fetch keeps the state sound, and only OCI fetches report a signature |
| `Trust.FromVendorSound` | host/src/dependencies.effect.ts:371-396 | a vendored tree is reported under a key only with a digest that key verified |
| `Trust.GeneratedSound` | host/src/dependencies.effect.ts:285-337 | so are generated CRD schemas |
| `Trust.ResolveDependencySound` | host/src/dependencies.effect.ts:281-496 | wherever the bytes come from, a reported signature was verified for the reported digest, and an OCI dependency without a fork carries the configured key's |
| `Trust.ResolveAllSound` | host/src/dependencies.effect.ts:197-237 | the same for every dependency of a Package, in manifest order, across the state they share |
| `Trust.LockEntryFor` | host/src/dependencies.effect.ts:260-269 | an entry found has the declared name, source and, but for Helm, version; none is found exactly when no entry has |
| `TrustPins.PullsGoByTheLock` | host/src/dependencies.effect.ts:197-428 | under an accepted lock with an entry for an OCI dependency, every successful resolution that honours pins returns the digest of the first such entry, whatever the registry serves, and the cached tree if it is cached and trusted |
| `TrustPins.LockedAndCachedIsEnough` | host/src/dependencies.effect.ts:197-428 | a Package whose OCI dependencies are locked, cached and trusted resolves without any network and changes nothing |
| `TrustPins.VendoredGoesByTheLock` | host/src/dependencies.effect.ts:371-396 | a vendored tree is reported under the digest the first entry ties it to, else under its own |
| `TrustPins.SchemasGoByTheLock` | host/src/dependencies.effect.ts:285-337 | generated schemas that are used are the directory as it is, under the digest the first entry pins, which also pins theirs |
| `TrustPins.SchemasExactly` | host/src/dependencies.effect.ts:295-336 | a dependency whose generated schemas are there resolves exactly when `source.toml` says what the manifest declares and the first entry pins its digest, the schemas' and, under a key, the signature |
| `TrustFetch.FetchedExactly` | host/src/dependencies.effect.ts:430-494 | a fetch from a Helm repository, a git remote or a URL succeeds with a digest exactly when the pinned slot or, online, the remote's offer gives it, and returns that tree |
| `TrustFetch.ResultIsDescribed` | host/src/dependencies.effect.ts:93-131 | whichever way a dependency resolves, what is to be recorded of it has the source and version declared, and its fork |
| `TrustFetch.SelectedVersion` | host/src/dependencies.effect.ts:430-453 | a chart is recorded under the version the repository selected, or under the requirement if its slot is pinned |
| `TrustFetch.UpdateTakesTheOffer` | host/src/cli/update.ts:70-93 | `update` goes by the sources, not by the lock: whatever it resolves, unless forked, vendored or local, has the digest its source offers now, and a chart the version |
| `TrustFetch.FirstVendorTakesTheOffer` | host/src/cli/vendor.ts:99-202 | `vendor add` of a name the lock does not know finds a source with a digest exactly when the workspace, registry or remote has it |
| `Trust.OciDependenciesAreVerified` | host/src/dependencies.effect.ts:197-237 | with a signing key configured, every OCI dependency returned without `replace` carries that key's reference and a digest the key verified |
| `Trust.PinnedFetchIsExact` | host/src/dependencies.effect.ts:397-496 | a successful fetch under a pin, from any remote, returns the pinned digest if and only if a git pin starts with `git:` |
| `Trust.IgnoredPinExample` | host/src/dependencies.effect.ts:464-464 | an accepted lock whose entry pins a git dependency by a `sha256:` digest, and a render that resolves that dependency to a commit all the same |
| `Trust.MergeSound` | host/src/lockfile.ts:144-175 | no merge pairs one digest with a signature for another, repeated keys and names included |
| `Trust.WriteLockSound` | host/src/cli/lock.ts:96-131 | `lock` and `update` keep every recorded signature next to a digest its key verified |
| `TrustRecords.WriteRecords` | host/src/lockfile.ts:124-175 | a command that resolves and generates records each chosen dependency with exactly the name, version, source, digest, fork, signature and schema digest of its result, and keeps the entries of other names; otherwise the lock stays |
| `TrustRecords.LockRecords` | host/src/cli/lock.ts:97-131 | so `lock` records every dependency of the manifest, and keeps the entries of other names |
| `TrustRecords.UpdateRecords` | host/src/cli/update.ts:61-95 | `update --dep` records that dependency alone; every entry of another name stays |
| `TrustRecords.UndeclaredUpdate` | host/src/cli/update.ts:63-69 | a name that is not declared is refused and changes nothing |
| `TrustReplay.LockedWell` | host/src/lockfile.ts:43-175 | the lock a command writes parses exactly when the entries it keeps repeat no key |
| `TrustReplay.RenderReplaysTheLock` | host/src/dependencies.effect.ts:197-496 | after a command that recorded what it resolved in a lock that parses, every render that succeeds resolves every dependency to the digest just recorded, whatever is served or cached by then |
| `TrustReplay.LockThenRender` | host/src/cli/lock.ts:97-131 | the same as a run: `lock`, then `render` |
| `TrustReplay.OfflineReplaysTheLock` | host/src/dependencies.effect.ts:197-496 | an offline render then changes nothing, and succeeds, with the same digests, files and schemas, exactly when every URL dependency's file is in its slot |
| `TrustReplay.LockThenRenderOffline` | host/src/cli/lock.ts:97-131 | so without URL dependencies it always succeeds |
| `Trust.VendorSound` | host/src/cli/vendor.ts:99-391 | so does `vendor add`, which pulls or fetches and merges on its own |
| `Trust.RemoveSound` | host/src/cli/remove.ts:31-50 | so does `remove`, which prunes the lock |
| `TrustEdits.VendorRecords` | host/src/cli/vendor.ts:352-391 | `vendor add` puts the tree under its name and, into a lock that parses, an entry with the source's digest and the tree's beside it where they differ; other trees, entries and the manifest stay |
| `TrustEdits.VendorLockParses` | host/src/cli/vendor.ts:370-391 | the lock then parses exactly when the entries it keeps repeat no key |
| `TrustEdits.VendorThenResolve` | host/src/dependencies.effect.ts:371-396 | when it parses, the next resolution returns that tree under that digest, offline too, with the signature the pull verified, and fetches nothing |
| `TrustEdits.RemovesExactly` | host/src/cli/remove.ts:31-51 | `remove` takes the declaration, the entries of a lock that parses and the generated schemas of one name, and nothing else |
| `TrustEdits.RemoveIsAcceptedExactly` | host/src/cli/remove.ts:44-50 | afterwards the lock parses exactly when nothing was pruned or the entries of other names repeat no key |
| `TrustEdits.RefusedRemoveExample` | host/src/cli/remove.ts:44-50 | a lock that parses and no longer does when another dependency is removed |
| `Trust.StepSound` | host/src/cli/update.ts:61-94 | so does every step: editing the workspace, `render`, `lock`, `update`, `vendor add`, `remove` |
| `Trust.RunsKeepTheLockSound` | host/src/dependencies.effect.ts:197-496 | so does every sequence of steps, and no check is forgotten |
| `Trust.FreshWorkspaceIsSound` | host/src/lockfile.ts:81-81 | every state a run reaches from an empty lock and empty caches is sound |
| `TrustFiles.VendoredIsBacked` | host/src/dependencies.effect.ts:371-396 | a vendored tree belongs to the digest it is reported with: the digest is its own, or that of a blob it derives from |
| `TrustFiles.SourceIsBacked` | host/src/dependencies.effect.ts:351-496 | so does every tree resolved from its source, whatever that is: a fork, a vendored tree, a cache or a remote |
| `TrustFiles.GeneratedIsBacked` | host/src/dependencies.effect.ts:281-337 | generated schemas that are used were made from the bytes whose digest is reported with them, or their tree digest has a collision: the recorded digest covers `source.toml` |
| `TrustFiles.VerifiedFilesAreBacked` | host/src/dependencies.effect.ts:197-237 | with a key, the files of every OCI dependency returned without `replace` are those of the digest the key verified, or schemas made from them, unless the schemas' tree digest collides |
| `TrustFiles.CarriedIsBacked` | host/src/lockfile.ts:149-163 | a merge carries a vendor digest only beside the blob digest it was recorded with, even when the source changes |
| `TrustFiles.UpdateIsMade` | host/src/cli/workspace.ts:88-100 | the schema digest a command records is that of schemas made from the files it resolved |
| `TrustFiles.VendorSourceBacked` | host/src/cli/vendor.ts:99-202 | the tree `vendor add` copies belongs to the blob digest it records |
| `TrustFiles.VendorBacked` | host/src/cli/vendor.ts:352-391 | `vendor add` pins a tree only next to its own blob, in every lock that still parses, and keeps a schema digest that was made as recorded |
| `TrustFiles.RunsKeepFilesBacked` | host/src/dependencies.effect.ts:197-496 | over every run, vendor digests stay those of the blobs beside them, and schema digests those of schemas made from the bytes they name |
| `TrustFiles.NoRunVouchesForOtherFiles` | host/src/dependencies.effect.ts:197-496 | after every run from a fresh workspace, what the next resolution under a key returns is backed in that sense |
| `ProvenanceText.ProvenanceRoundTrip` | host/src/crds.effect.ts:40-76 | every `source.toml` written, in UTF-8 behind its comments, reads back as what it says |
| `ProvenanceText.LawHolds` | host/src/crds.effect.ts:40-76 | so the law assumed of `source.toml` holds of the code that writes and reads it |
| `TrustVersions.SourceIsPlaced` | host/src/dependencies.effect.ts:255-270 | what resolution records for an OCI dependency was offered by a registry at the source and version recorded with it, or is a local tree's own digest |
| `TrustVersions.VendorPlacesExactly` | host/src/cli/vendor.ts:96-137 | what `vendor add` records was offered there exactly when its pin, found by name and prefix, was not a cached entry of another source or version, or that entry's digest is offered there too |
| `TrustVersions.RunsKeepEntriesPlaced` | host/src/dependencies.effect.ts:255-496 | over every run: at each moment every OCI entry's digest was offered at the entry's own source and version, if and only if no `vendor add` strays that way to a digest not offered there and writes a lock that parses |
| `TrustVersions.StrayPinExample` | host/src/cli/vendor.ts:96-137 | `vendor add` of version 2, with no registry to ask, records version 2 with the bytes locked for version 1 |
| `EngineBudget.CallKeepsValid` | host/src/host-native.effect.ts:117-236 | one call, whatever the guest does: the counter grows, stays within the budget and equals what the instances burned; a typed failure leaves no live instance |
| `EngineBudget.RunsStayWithinBudget` | host/src/host-native.effect.ts:117-236 | the same over every run of calls |
| `EngineBudget.RequestsRunOnSoundInstances` | host/src/host-native.effect.ts:206-236 | after any run, the next request does not run on an instance whose last call failed with a typed error |
| `EngineBudget.LiveExactlyUnlessFailed` | host/src/host-native.effect.ts:215-236 | after every call the engine is live exactly when a session was obtained and the reply is not a typed failure; the next request then runs on that very instance, even after a defect |
| `EngineBudget.SpentBudgetIsFinal` | host/src/host-native.effect.ts:167-168 | once the budget is spent no later call runs a guest |
| `EngineBudget.CallIsMetered` | host/src/host-native.effect.ts:117-236 | every call answers and costs what a bare fuel counter says of its guest's init, where an instance has to be made, and its request; an engine that cannot be loaded or instantiated costs nothing |
| `EngineBudget.NativeHost.StartReactor` | host/src/host-native.effect.ts:117-148 | instantiation charges the inits, whether or not they succeed |
| `EngineBudget.NativeHost.Ask` | host/src/host-native.effect.ts:156-197 | a request gets what is left and is charged what it burns |
| `EngineBudget.NativeHost.CallEngine` | host/src/host-native.effect.ts:203-238 | the mutable reactor is the specification and keeps the invariant |
| `Packages.PrepareTree` | host/src/worker.effect.ts:192-244 | the recursion with one map per level ends and computes the specification |
| `Packages.PreparedAlong` | host/src/worker.effect.ts:205-221 | along every chain of names: a Package exactly where the real roots are distinct and at most 16, a cycle exactly where the root is on its own stack, the limit exactly where a 17th would start, nothing elsewhere |
| `Packages.PackagesAreBounded` | host/src/worker.effect.ts:36-37 | every Package in a prepared tree is at most 15 names down, below Packages with other roots |
| `Packages.PrepareSucceedsExactly` | host/src/worker.effect.ts:192-244 | preparation succeeds exactly when every Package a render could reach resolves and its Packages exist |
| `Composition.RenderIsBounded` | host/src/worker.effect.ts:340-377 | whatever the guests do, a render begins at most 64 nested ones, one for each admitted attempt, and all engine calls together stay within the fuel budget |
| `Composition.NoRenderInsideItself` | host/src/worker.effect.ts:192-374 | every render begun inside a render of a prepared tree is at most 15 names down, and no Package is rendered inside itself |
| `Composition.FirstFailureSurfaces` | host/src/worker.effect.ts:377-459 | at every depth: if every guest around the first plugin failure traps, exits non-zero or reports failure, the render fails with that failure's code, and the exit code is 6 exactly for the deadline code |
| `Composition.OwnLimitSurfaces` | host/src/worker.effect.ts:434-446 | a guest stopped at its own fuel or memory limit reports that limit whatever its plugin calls did, and the exit code is 6 exactly for fuel |
| `Composition.CallerKeepsLimit` | host/src/worker.effect.ts:378-389 | when a nested render is stopped at such a limit, its caller's plugin failure carries the limit's code |
| `Composition.CleanRunSucceeds` | host/src/worker.effect.ts:447-457 | a guest that ends well succeeds, even after plugin failures |
| `Composition.ExitCodeSix` | host/src/contract.ts:151-163 | for every render failure the exit code is 6 exactly for the deadline code, else 1 |
| `Composition.Renderer.RenderDependency` | host/src/worker.effect.ts:340-390 | the mutable budget is charged and checked as specified |
| `Composition.Renderer.EvaluateTree` | host/src/worker.effect.ts:392-462 | the plugin callback keeps the first failure, and the worker's end, or that it never started, is judged as specified |
| `Composition.RefusedExactly` | host/src/worker.effect.ts:342-376 | a nested render is refused, with the code for each case, exactly when its name leads nowhere, its Package is on its own stack, it would be the 17th down or the 65th render; no other is |
| `Composition.EngineCallFailsExactly` | host/src/plugins.effect.ts:103-153 | an engine call inside a guest fails exactly when the engine does not answer or its answer is refused, with a code exactly when the engine's failure has it |
| `Composition.RenderPackage` | host/src/worker.effect.ts:464-468 | a top-level render starts with a new budget and leaves the engines as specified |
| `TomlText.ComputeMetrics` | host/src/toml-write.ts:40-59 | the loop finds the longest runs of both quotes and the characters that need escapes |
| `TomlText.EscapeBasic` | host/src/toml-write.ts:64-78 | the loop escapes as the recursive specification does |
| `TomlText.EscapeDecodes` | host/src/toml-write.ts:61-78 | every escape written decodes to the character it stands for |
| `TomlText.StringRoundTrip` | host/src/toml-write.ts:84-91 | every string, in whichever of the five styles is chosen, reads back as itself |
| `TomlText.KeyRoundTrip` | host/src/toml-write.ts:94-102 | every key, the empty one included, reads back as itself |
| `TomlGrammar.ValueRoundTrip` | host/src/toml-write.ts:104-108 | every value reads back as itself, arrays over several lines included |
| `TomlGrammar.LinesRoundTrip` | host/src/toml-write.ts:148-152 | every sequence of headers and pairs reads back as itself |
| `TomlReplay.FoldIsLocal` | host/src/toml-write.ts:121-141 | under the table rules of TOML v1.0.0, lines below a key only touch the table behind it |
| `TomlDocument.TomlWriter.Emit` | host/src/toml-write.ts:120-142 | pushing a section, filling it while its subtables push theirs behind it, gives the sections of the specification |
| `TomlDocument.TomlWriter.EmitField` | host/src/toml-write.ts:123-141 | one field extends its own section and pushes its subtables' |
| `TomlDocument.WriteToml` | host/src/toml-write.ts:118-154 | the whole document is the text of the specification |
| `TomlDocument.DocumentReadsBack` | host/src/toml-write.ts:144-154 | the written text reads back as the lines of its kept sections |
| `TomlMeaning.TableReplay` | host/src/toml-write.ts:118-154 | replaying a table's lines rebuilds it, values before subtables and headers left out notwithstanding |
| `TomlMeaning.TomlRoundTrip` | host/src/toml-write.ts:118-154 | for every tree with distinct keys, reading the written text gives exactly that tree |
| `Paths.NormalIsKept` | host/src/archive.ts:74-78 | a normal path is accepted unchanged |
| `Paths.AcceptedIsNormal` | host/src/archive.ts:73-78 | whatever is accepted is relative, without `..`, empty or `.` parts |
| `Paths.KeptExactly` | host/src/archive.ts:73-78 | a name is accepted unchanged exactly when it is normal |
| `Paths.EntryPathExactly` | host/src/archive.ts:73-78 | every name: refused exactly when it starts with a slash, has a part `..` or no part that says something; else the entry's parts are its other parts in order, backslashes counting as slashes |
| `Paths.EntryPathIsShorter` | host/src/archive.ts:73-78 | an accepted name is never longer than the archive's |
| `Pax.SettleLength` | host/src/archive.ts:164-168 | the loop ends at the least length that equals its own digit count plus the body |
| `Pax.PaxPath` | host/src/archive.ts:164-169 | writes the record of the specification |
| `Pax.RecordLength` | host/src/archive.ts:163-169 | the length a record states is its length in bytes, across powers of ten |
| `Pax.PaxRecords` | host/src/archive.ts:57-71 | the reading loop computes the records of the specification on every text |
| `Pax.RecordRoundTrip` | host/src/archive.ts:57-71 | a written record reads back as its path, or with a newline behind it exactly when the path has fewer characters than bytes, so when it is not ASCII |
| `PaxLists.RecordsReadBack` | host/src/archive.ts:57-71 | a list of ASCII records reads back as what it says, the last record of a key winning |
| `TarHeader.Put` | host/src/archive.ts:139-139 | writes at most the field's length, and nothing outside it |
| `TarHeader.TarHeaderBlock` | host/src/archive.ts:137-155 | the block filled in place is the header of the specification |
| `TarHeader.SizeReads` | host/src/archive.ts:47-54 | the size a header states reads back, for sizes below 8^11 |
| `TarHeader.ChecksumIsExact` | host/src/archive.ts:147-153 | the checksum field is six octal digits, a NUL and a space, and holds the exact byte sum with the field blank |
| `Tar.WriteTar` | host/src/archive.ts:175-187 | the writing loop gives the archive of the specification |
| `Tar.Untar` | host/src/archive.ts:81-124 | the loop over offset, carried names and entries gives the result or the error of the specification on every input |
| `Tar.ArchiveReads` | host/src/archive.ts:81-187 | what reading any written archive gives, whatever the files are called: the entries in order, or a refusal |
| `Tar.TarRoundTripExactly` | host/src/archive.ts:81-187 | the same paths and bytes come back exactly when every path is normal, ASCII if over 100 bytes, and otherwise without NUL and leading byte order mark |
| `Tar.AsciiRoundTrip` | host/src/archive.ts:81-187 | ASCII paths of any length come back exactly when they are normal and no path of up to 100 characters has a NUL |
| `Tar.LongAccentedPath` | host/src/archive.ts:59-68 | in UTF-8, sixty accented letters do not come back |
| `TarForeign.ForeignArchiveReads` | host/src/archive.ts:81-124 | any archive of well-formed members, old or ustar headers: reading it gives exactly its regular files in order, each under its `path` record, else long name, else prefix and name, else name; other members are skipped and use up what was announced; it is refused exactly for the first name that is not UTF-8 or leads out |
| `TarForeign.LongNameReads` | host/src/archive.ts:102-105 | a GNU long name reads back up to its NUL |
| `TarForeign.WrittenIsWellFormed` | host/src/archive.ts:137-155 | the headers this program writes are among those |
| `WebUtf8.CodecIsLawful` | host/src/archive.ts:18-18 | UTF-8 as the Encoding Standard defines it has every law the archive results assume |
| `CrdSchemas.FirstFree` | host/src/crd-schemas.ts:300-305 | the search for a name ends, at one that is free |
| `CrdCorrect.TypeCompiles` | host/src/crd-schemas.ts:342-363 | the type and the blocks added mean the direct translation, under fresh names, with no slot empty and no reference dangling |
| `CrdCorrect.ObjectCompiles` | host/src/crd-schemas.ts:365-384 | the same for objects, whose slot is reserved before and filled after their fields |
| `CrdCorrect.KindCompiles` | host/src/crd-schemas.ts:308-334 | the same for one kind, its root first, with `apiVersion` and `kind` fixed to their values by default, and its metadata |
| `CrdCorrect.PackageCompiles` | host/src/crd-schemas.ts:292-385 | across all kinds of a package: names are distinct and no keywords, every reference is defined, every slot is filled, and each root means its kind's direct translation |
| `CrdCorrect.LookupIsUnique` | host/src/crd-schemas.ts:292-305 | a name leads to one block |
| `CrdMeaning.EnumsBecomeLiterals` | host/src/crd-schemas.ts:393-403 | an enum becomes literals exactly for a string or integer type with values of that kind, and admits exactly those |
| `CrdMeaning.ScalarsByValue` | host/src/crd-schemas.ts:342-363 | each type without recursion by the values it admits |
| `CrdMeaning.FitsIsInShape` | host/src/crd-schemas.ts:342-384 | a type admits, looking its names up among the blocks, what the direct translation it means admits |
| `CrdMeaning.AdmittedFits` | host/src/crd-schemas.ts:342-384 | what a schema admits its type admits, unless a schema without a type says what the compiler takes for an object |
| `CrdMeaning.FittingIsAdmitted` | host/src/crd-schemas.ts:342-384 | what the type admits the schema admits, if every keyword is one KCL can say |
| `CrdExact.ExactExactly` | host/src/crd-schemas.ts:342-384 | both admit the same values if and only if that is so |
| `CrdRoots.NothingValidIsRejected` | host/src/crd-schemas.ts:308-385 | what a definition admits its generated root admits, looked up among the blocks of all files, unless an untyped schema of its fields is like that |
| `CrdRoots.RootsAreExact` | host/src/crd-schemas.ts:308-385 | for every kind of every package: the generated root admits exactly what the definition does, envelope, own fields, unknown fields where kept and no status, if and only if the definition is expressible |
| `CrdRoots.UntypedRejectsText` | host/src/crd-schemas.ts:365-372 | a schema without a type admits text, but its type does only if it has neither properties nor a schema for other fields nor keeps unknown ones |
| `CrdCorrect.PackageEmitter.Unique` | host/src/crd-schemas.ts:300-305 | the loop returns and records the name of the specification |
| `CrdCorrect.PackageEmitter.Type` | host/src/crd-schemas.ts:342-363 | the mutating emitter is the specification |
| `CrdCorrect.PackageEmitter.Object` | host/src/crd-schemas.ts:365-384 | likewise, with the block filled at its reserved index |
| `CrdCorrect.PackageEmitter.Attributes` | host/src/crd-schemas.ts:336-340 | likewise, field by field |
| `CrdCorrect.PackageEmitter.Kind` | host/src/crd-schemas.ts:308-334 | likewise, for one file |
| `Secrets.Search` | cli/src/api/inputs.ts:206-222 | the search over the shared visited set gives the answer and the set of the stepwise search |
| `Secrets.IsSecret` | cli/src/api/inputs.ts:205-222 | whenever the call ends, on any graph: true exactly when a password schema is reachable through `anyOf`, or `oneOf` where there is no `anyOf`, properties and items, each resolved along its references |
| `Secrets.TerminatesExactly` | cli/src/api/inputs.ts:206-287 | the search ends if every reference met below the schema ends; where no password schema is reachable, only then; references elsewhere do not matter |
| `Secrets.AnswersAreRight` | cli/src/api/inputs.ts:206-222 | with any bound on the steps: if the search answers, yes means reachable, no means unreachable and every reference ending |
| `Secrets.SearchEnds` | cli/src/api/inputs.ts:206-222 | the shared visited set makes some number of steps enough on every cyclic graph whose references end |
| `Secrets.OrderDecides` | cli/src/api/inputs.ts:214-221 | where both a password and an endless reference are reachable, the order of the branches decides whether the search ends |
| `Secrets.SelfReferenceNeverEnds` | cli/src/api/inputs.ts:282-287 | on a reference to itself no number of steps is enough, and a schema beside it is searched all the same |
| `Contract.ReachableDefinitions` | cli/scripts/generate-contract.ts:289-309 | the worklist ends with exactly the cleaned components it can reach along their references, or with a reachable name that is missing |
| `Contract.ReachableIsLeast` | cli/scripts/generate-contract.ts:289-309 | reachable names lie in every closed set that holds the roots' references |
| `Contract.CleanMentions` | cli/scripts/generate-contract.ts:311-340 | cleaning changes no reference: what the cleaned schema mentions is what the schema refers to outside documentation |
| `Contract.CleanedIsClean` | cli/scripts/generate-contract.ts:325-340 | what is cleaned is the schema without documentation at any depth, members in order, component references pointing at definitions |
| `Contract.PromiseHoldsExactly` | cli/scripts/generate-contract.ts:297-305 | when every reachable component is there, exactly the reachable ones are returned if and only if none has an inherited name |
| `Contract.MissingIsNoticedExactly` | cli/scripts/generate-contract.ts:298-302 | when one is missing, it fails if and only if a missing name that is not inherited is reachable past names that are not |
| `Contract.MissingUnnoticedExample` | cli/scripts/generate-contract.ts:298-298 | a missing component named `toString` is not noticed |
| `Contract.InheritedNameExample` | cli/scripts/generate-contract.ts:298-298 | a component named `toString` is left out |
| `CacheInstall.SlotIsAbsentOrComplete` | host/src/downloads.effect.ts:68-89 | under every interleaving, with failures and crashes anywhere: the slot is absent or holds exactly the content, a process that succeeds leaves it there, and it stays |
| `CacheInstall.RaceIsHarmless` | host/src/downloads.effect.ts:64-89 | while the file system works no process fails, and when all have finished no staging directory is left |
| `CacheInstall.EveryProcessCanFinish` | host/src/downloads.effect.ts:64-89 | whatever the others did, a process under way can finish by its own steps, and then the slot holds the content |
| `CacheInstall.RaceCanBeFinished` | host/src/downloads.effect.ts:64-89 | in every race without faults each process is done or can finish so |
| `DeviceLogin.IntervalCountsSlowDowns` | cli/src/cli/auth.ts:235-240 | each request's interval is the first one plus 5 s for each `slow_down` before it |
| `DeviceLogin.RequestsAreSpaced` | cli/src/cli/auth.ts:214-240 | each request is sent before the deadline, and its interval, the answer's delay and the sleep's excess after the one before |
| `DeviceLogin.AnswersInOrder` | cli/src/cli/auth.ts:221-234 | requests get the answers in order, and every answer but the last says `authorization_pending` or `slow_down` |
| `DeviceLogin.LastAnswerDecides` | cli/src/cli/auth.ts:219-238 | the outcome is what the last answer says: the token, the refusal or a failure; or, if it asks to go on, expiry, and then the next request would have been due at the deadline or later |
| `DeviceLogin.LoginIsBounded` | cli/src/cli/auth.ts:198-241 | every login sends fewer requests than lifetime over interval plus one, all before the deadline, the first at once and under the interval given or 5 s (section 3.5 of RFC 8628) |

## Left out

- HTTP, registry authentication, token exchange, uploads and git transport: only what a fetch returns and which checks gate it is modelled.
- SHA-256, ECDSA, PBES2, gzip, zstd, Wasmtime, KCL, YAML and semver: foreign code, arbitrary functions or nondeterministic environments here.
- Command lines, human and agent output, help and error messages: failures carry their codes, not their texts.
- Strings are sequences of characters: JavaScript's order on UTF-16 units differs from ours beyond the basic plane, and lone surrogates do not occur.
- Lockfile.ParseLock: starts from the decoded lock; syntax errors of the TOML text are not told apart.
- TomlGrammar.ValueRoundTrip: numbers are integers; how JavaScript spells fractions, exponents and NaN is not modelled.
- TOML reading: the reader covers what the program writes (no CRLF, no dotted keys in pairs).
- Trust.RunsKeepTheLockSound: a command sees one answer per remote, caches are read and written without I/O failures, and `--plan` and `--check` runs, which write nothing, are not separate steps.
- TrustFiles.VerifiedFilesAreBacked: trees are compared by their opaque digests, as the program does, and generation is an arbitrary function of a dependency's name, files and selector.
- TrustVersions.RunsKeepEntriesPlaced: OCI entries only; git and URL pins of `vendor add` are found the same way, and Helm entries record the version that was selected.
- Kind detection is not part of the model; the directory an archive is scoped to is an arbitrary function of its files, and `treeDigest` is opaque.
- EngineBudget.CallKeepsValid: a request's several calls into the guest are one burn; the guest's memory and the result's bytes are not modelled.
- Packages.PrepareTree: the file system and the resolver do not change while one tree is prepared; failures of mounting generated packages are not modelled.
- Composition.Renderer.EvaluateTree: inputs, outputs and messages of guests are left out.
- CrdMeaning.AdmittedFits: formats, patterns, bounds, `allOf` and the like are not in the model, as the compiler does not read them; a null member counts as absent, and a KCL float admits integers.
- CrdRoots.RootsAreExact: the root of a definition is an object; an enum or a required envelope field at the root itself, which the compiler does not read either, is not part of what the definition admits here.
- TarForeign.ForeignArchiveReads: headers with a magic other than `ustar` or none, or a size in another form than blanks, octal digits and NUL, are covered by `Tar.Untar` alone.
- TrustFetch.FetchedExactly: which git remotes and revisions are valid and how a chart's version is selected from an index are what the network answers.
- TrustRecords.LockRecords: the refusal of an import that resolves to a Helm chart (E_DEP_KIND_MISMATCH) is not modelled.
- Tar.TarRoundTripExactly: files and records of 8^11 bytes or more are excluded; a path of several code units per character is counted by characters.
- CrdCorrect.KindCompiles: docstrings and the quoting of attribute names are left out.
- CrdCorrect.PackageCompiles: so are file names; properties come in the order `sortedEntries` gives them.
- Contract.ReachableDefinitions: a member named `__proto__` inside a schema is treated like any other; key order of the result is not modelled.
- CacheInstall.SlotIsAbsentOrComplete: processes install the same content, as the slot is named by its digest; nobody else writes to the cache directory.
- DeviceLogin.RequestsAreSpaced: time is real-valued, the clock does not run backwards and a sleep lasts at least as long as asked.
- `readBounded`, keyless and DSSE verification, attestations, publishing, the REPL and the Rust crates: independent of the above, and mostly branch-by-branch facts.
