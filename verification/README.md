# Entanglement in Dafny

A model of the parts of the Entanglement daemon that keep state under locks,
speak a protocol, or parse what another machine sent, with proofs of what they
guarantee. Entanglement loads signed plugins, grants them capabilities, pairs
devices, shares a file of trusted peers, and ships one-shot work between
machines.

`dafny verify dfyconfig.toml` checks the whole project.

## How it is built

Concurrent components are machines of lock-sized steps over any number of
threads or processes: a state, an action, `Enabled`, `Apply`, and a run as a
sequence of states. Theorems speak about every state of every run. The objects
themselves are classes whose methods are proved against the same critical
sections.

| file | component |
|---|---|
| `Broker`, `BrokerSafety`, `BrokerService`, `Audit` | capability broker and audit log |
| `Kernel`, `KernelSafety`, `KernelAlone`, `KernelService` | plugin lifecycle over the broker |
| `Manifest`, `ManifestTiers`, `Capability`, `PluginIds` | manifests, tiers, plugin ids |
| `PairingHost`, `PairingTightness`, `PairingAttempts`, `HostSession` | one host session of the networked pairing |
| `PairingNetwork`, `PairingAgreement`, `PairingCompleteness` | sessions, dialers and an adversary |
| `Peers`, `PeerStore`, `PeerStoreSafety`, `PeerStoreService` | the shared peers file |
| `Utf8`, `Postcard`, `Wire`, `Framing`, `Remote`, `Dispatcher` | remote dispatch |
| `Topic` | the topic glob matcher |
| `Datalog`, `Biscuit`, `BiscuitRoundTrip`, `TokenMeaning`, `Bridge`, `CrossNodeGrant` | biscuit facts, bridge caps, biscuit-backed grants |
| `Placement`, `Pool`, `Resync` | placement, worker pool, discovery feed |
| `Common`, `Text`, `Order`, `Identity` | shared vocabulary |

What stands for what:

- Strings are sequences of Unicode scalar values; on the wire they are UTF-8
  (RFC 3629).
- BLAKE3 is a function parameter. No theorem needs it to be injective.
- Ed25519 signatures are terms that name signer and payload. A dishonest party
  can replay an honest signature but not make one.
- Connections are authenticated: each end knows the other's key.
- Clocks and I/O outcomes are inputs of the steps.
- f32 is the extended reals with NaN; rounding and the sign of zero are left out.
- Integers have the width of the source where it matters: grant ids and the
  dropped counter wrap at 2^64, attempts saturate at 2^32, `i64` subtraction
  wraps because the release profile has no overflow checks.
- TOML and JSON documents are the values they encode, or garbage.
- A biscuit is the sequence of its blocks' printed sources; a block prints one
  fact a line, each closed by a semicolon.
- `history`, `issued` and `ledger` in the broker's state and `initial` and `log`
  in the peer store's are history variables that no step reads.

Where the code does less than its comments suggest:

- `resync_pool_from_snapshot` is described as an authoritative rebuild. A
  trusted peer whose new advert is invalid stays out, or keeps its old slot if
  it had one; `Resync.MembersAreDesired` gives the exact condition.
- `verify_bridge_cap` is described as bounding the lifetime to an hour. On a
  clock 2^63 or more seconds before the expiry the subtraction wraps and the
  bound is not applied; `Bridge.AcceptedCapIsShortLived` gives the exact
  condition.
- `validate_pattern` also accepts patterns that embed a star in a literal
  segment, which match nothing; `Topic.UsablePatterns` separates them.
- `verify_deterministic` compares the number of outputs as a `u8`, so 256 of them
  count as none; `KernelService.InsufficientExactly` gives the exact condition.
  Its only caller makes at most 255.
- A claim set whose surfaces contain line feeds does not scan back;
  `BiscuitRoundTrip.PrintScanExact` is an equivalence.

## Model

| member | source | states |
|---|---|---|
| `KernelSafety.TablesAgree` | crates/entangle-runtime/src/kernel.rs:127-351 | in every state of every run with any number of load, unload, invoke and plugin-request threads, a loaded id is registered and owned by no call, and any other registered id is owned by exactly one load or unload in flight |
| `KernelSafety.SlotIsVacant` | crates/entangle-runtime/src/kernel.rs:227-241 | a load that reaches the bookkeeping insert always finds the slot vacant and succeeds, so the `Occupied` arm is unreachable |
| `KernelSafety.UnregisterNeverFails` | crates/entangle-runtime/src/kernel.rs:342-351 | the broker never refuses the unregistration made by a rollback or by an unload |
| `KernelSafety.KeySetsEqualWhenIdle` | crates/entangle-runtime/src/kernel.rs:127-351 | whenever no load or unload is in flight, the kernel table and the broker registry have the same keys |
| `KernelSafety.BrokerStep` | crates/entangle-runtime/src/kernel.rs:127-351 | each kernel step is at most one enabled broker step, so every kernel run contains a broker run |
| `KernelSafety.BrokerGuaranteesHold` | crates/entangle-runtime/src/kernel.rs:127-351 | the broker's whole invariant holds in every state of every kernel run |
| `KernelSafety.NoDeadlock` | crates/entangle-runtime/src/kernel.rs:127-351 | in every state of every run a call in flight can move, or is registering or unregistering in the broker and waits for a reader that can |
| `KernelSafety.StepInv` | crates/entangle-runtime/src/kernel.rs:127-351 | the coupled invariant of both tables and of all threads is preserved by every step |
| `KernelSafety.RepliesAreTrue` | crates/entangle-runtime/src/kernel.rs:127-351 | in every run a call reports success only as it puts its own record into the vacant slot, `AlreadyLoaded` only of a loaded id, `NotLoaded` only of one that is not, a failed load leaves the kernel table alone, and an unload never reports a broker failure |
| `KernelAlone.LoadAlone` | crates/entangle-runtime/src/kernel.rs:127-244 | a load that runs alone is a run of the machine with the object's result: it succeeds exactly when the id is new, signed, within the ceiling and compiles, and a failure says why and leaves both tables as they were |
| `KernelAlone.UnloadAlone` | crates/entangle-runtime/src/kernel.rs:342-351 | an unload that runs alone takes a loaded id out of both tables and reports one that is not loaded |
| `KernelService.Kernel.Load` | crates/entangle-runtime/src/kernel.rs:127-244 | a sequential load succeeds exactly when the id is new, the signature verifies, the tier is within the ceiling and compilation succeeds; each failure has its own error in that order, and every failure leaves both tables as they were |
| `KernelService.Kernel.Unload` | crates/entangle-runtime/src/kernel.rs:342-351 | removes the id from both tables, reports an unknown id, and never reports a broker failure |
| `KernelService.Kernel.InvokeWithIntegrity` | crates/entangle-runtime/src/kernel.rs:289-337 | under `Deterministic` an output is returned exactly when all replicas succeed and hash alike, and it is the first one; otherwise the error is that of the first failing run or names the first diverging one; an unloaded plugin, an allowlist miss and the unimplemented policies have their own errors |
| `KernelService.Kernel.VerifyDeterministic` | crates/entangle-runtime/src/integrity.rs:64-86 | the loop computes the verdict on any list of outputs: too few by the `u8` count, the panic on an empty list, the first diverging replica, or output 0 |
| `KernelService.InsufficientExactly` | crates/entangle-runtime/src/integrity.rs:68-73 | too few outputs are reported exactly when there are too few, if and only if the count is below 256 or its low byte reaches the requirement |
| `KernelService.TruncatedCount` | crates/entangle-runtime/src/integrity.rs:68-73 | 256 equal outputs with requirement 1 are reported as too few |
| `KernelService.VerdictOnFittingCount` | crates/entangle-runtime/src/integrity.rs:64-86 | on every count below 256 an output is returned exactly when there are enough, at least one, and all hash alike, and it is the first |
| `BrokerSafety.GrantsStayWithinTiers` | crates/entangle-broker/src/broker.rs:122-246 | in every reachable state an outstanding grant is declared in its manifest and min tier, implied, effective and the ceiling the daemon started with are in order; a wasm plugin never holds a tier 4 or 5 grant |
| `BrokerSafety.SharedLockIsAuthoritative` | crates/entangle-broker/src/broker.rs:78-82 | what was decided under the shared lock still holds when the grant is inserted, in every interleaving |
| `BrokerSafety.GrantIdsReusedOnlyByWrapping` | crates/entangle-broker/src/broker.rs:208-216 | two issues carry the same id exactly when their distance is a multiple of 2^64, hence never with fewer than 2^64 grants |
| `BrokerSafety.AuditAgreesWithGrants` | crates/entangle-broker/src/broker.rs:154-272 | at quiescence the history has one grant record per issued id, and one release record exactly if the id is no longer outstanding |
| `BrokerSafety.RecordsOfOneIdAgree` | crates/entangle-broker/src/broker.rs:226-246 | all audit records of one grant id name the same plugin and capability |
| `BrokerSafety.LogIsHistorySuffix` | crates/entangle-broker/src/audit.rs:164-172 | in every state of every run the retained log is the last `max_events` events recorded and the counter is the number of the others |
| `BrokerSafety.NoDeadlock` | crates/entangle-broker/src/broker.rs:122-272 | a call that cannot move is registering or unregistering and waits for a reader that can |
| `BrokerSafety.StepInv` | crates/entangle-broker/src/broker.rs:122-272 | registry, ledger and history invariants are preserved by every lock-sized step |
| `BrokerSafety.NobodyHoldsAboveTier` | crates/entangle-types/src/capability.rs:95-113 | in every reachable state, capability by capability: a wasm plugin holds no share, mesh or docker-socket grant, the docker socket is held at tier 5 only, and network and accelerator grants need tier 3 |
| `BrokerSafety.DecisionsAreAudited` | crates/entangle-broker/src/broker.rs:122-272 | in every run the step in which a call returns has its decision in the audit history: which event, naming whom, or none for a refusal that leaves none |
| `Audit.RetainsLast` | crates/entangle-broker/src/audit.rs:142-172 | recording any history keeps its last `max(1, max_events)` events and counts the rest, modulo 2^64 |
| `Audit.AuditLog.RecordEvent` | crates/entangle-broker/src/audit.rs:164-172 | the eviction loop computes the specified log |
| `BrokerService.Service.Register` | crates/entangle-broker/src/broker.rs:122-151 | refuses above the ceiling and duplicates without change, else inserts and records |
| `BrokerService.Service.Unregister` | crates/entangle-broker/src/broker.rs:154-179 | removes the record and records one release per outstanding grant, in some order that lists each exactly once, then the unregistration |
| `BrokerService.Service.Grant` | crates/entangle-broker/src/broker.rs:186-246 | grants exactly what a registered manifest declares: the next id, that plugin's table and one record change; an undeclared request is denied with a record and an unknown plugin refused without one |
| `BrokerService.Service.Release` | crates/entangle-broker/src/broker.rs:251-272 | idempotent release: removes and records an outstanding grant, changes nothing for an unknown id |
| `BrokerService.Service.SnapshotGrants` | crates/entangle-broker/src/broker.rs:330-346 | exactly the outstanding grants of the plugin, none for an unknown plugin |
| `BrokerService.RegisterAlone` | crates/entangle-broker/src/broker.rs:122-151 | a register call that runs alone is a run of the machine with the same result as the object's method |
| `BrokerService.GrantAlone` | crates/entangle-broker/src/broker.rs:186-246 | the same for a grant call |
| `BrokerService.ReleaseAlone` | crates/entangle-broker/src/broker.rs:251-272 | the same for a release call |
| `BrokerService.UnregisterAlone` | crates/entangle-broker/src/broker.rs:154-179 | the same for an unregister call and any order of its grants; an unknown id is reported and nothing changes |
| `Capability.FormatCapInjective` | crates/entangle-broker/src/broker.rs:364-379 | two capabilities with the same audit name are the same capability |
| `Manifest.ValidateSound` | crates/entangle-manifest/src/validate.rs:109-185 | an accepted manifest has a valid id and tiers in order, and wasm stays at tier 3 or below |
| `Manifest.ValidateAccepts` | crates/entangle-manifest/src/validate.rs:109-185 | validation succeeds exactly for the manifests that satisfy every rule |
| `Manifest.OffendingExists` | crates/entangle-manifest/src/validate.rs:135-154 | whenever the declared tier is below the implied one, an offending entry exists, so the `expect` never fires |
| `Manifest.CheckTiersLoop` | crates/entangle-manifest/src/validate.rs:122-177 | the loops over the entries compute the specified verdict |
| `ManifestTiers.AcceptedExactly` | crates/entangle-manifest/src/validate.rs:109-185 | validation succeeds exactly when the tier number is 1 to 5, the id parses, wasm is asked for at tiers 1 to 3 and native above, and the table of keys and tier numbers allows every entry |
| `ManifestTiers.OneEntry` | crates/entangle-types/src/capability.rs:95-113 | a manifest with one entry, otherwise valid, is accepted exactly from the stated tier number on, key by key |
| `ManifestTiers.AcceptedAs` | crates/entangle-manifest/src/validate.rs:109-185 | an accepted manifest keeps its id, tier and runtime, has one capability per entry in order, and its implied tier is the least that allows every entry |
| `ManifestTiers.RefusedBecause` | crates/entangle-manifest/src/validate.rs:109-120 | a tier out of range is reported before an id that does not parse |
| `ManifestTiers.RefusedEntry` | crates/entangle-manifest/src/validate.rs:122-126 | the first entry that does not parse is the error |
| `ManifestTiers.RefusedTier` | crates/entangle-manifest/src/validate.rs:135-154 | an under-declared manifest is refused naming its declared tier, the least fitting tier and the first entry that needs more |
| `ManifestTiers.RefusedRuntime` | crates/entangle-manifest/src/validate.rs:160-175 | with every entry allowed, the wrong runtime for the tier is the error |
| `ManifestTiers.PlainKey` | crates/entangle-manifest/src/validate.rs:206-279 | a capability without arguments is declared by its audit name and by nothing else |
| `ManifestTiers.StorageKey` | crates/entangle-manifest/src/validate.rs:206-279 | exactly which keys and arguments declare each storage and custom capability |
| `ManifestTiers.UnreadableEntry` | crates/entangle-manifest/src/validate.rs:206-279 | an entry is unreadable exactly when no tier allows it, and a wrong argument and an unknown key are told apart |
| `ManifestTiers.AuditName` | crates/entangle-broker/src/broker.rs:364-379 | the audit name of an entry is its key with the scope or mode it resolved to |
| `PluginIds.ParseShow` | crates/entangle-types/src/plugin_id.rs:58-114 | parsing the printed form of any valid plugin id gives it back |
| `PluginIds.ShowParse` | crates/entangle-types/src/plugin_id.rs:58-114 | whatever parses is valid and prints back with a lower-cased publisher |
| `PluginIds.VersionRoundTrip` | crates/entangle-types/src/plugin_id.rs:58-114 | printed semantic versions parse back |
| `PluginIds.TextParses` | crates/entangle-types/src/plugin_id.rs:58-114 | every text of 32 hex digits, a slash, a name of the stated form, an `@` and a version parses into its parts |
| `PluginIds.ParsedText` | crates/entangle-types/src/plugin_id.rs:58-114 | nothing else parses |
| `PluginIds.RefusedParts` | crates/entangle-types/src/plugin_id.rs:58-114 | which error a text gets: the version before the publisher before the name |
| `PluginIds.VersionTexts` | crates/entangle-types/src/plugin_id.rs:58-114 | a text parses as a version exactly when it is the printed form of a valid one |
| `PairingHost.EndedIsWriteOnce` | crates/entangle-pairing/src/net.rs:394-513 | how a session ended and its outcome never change once set, in every interleaving of handlers and observers |
| `PairingHost.OneFinalize` | crates/entangle-pairing/src/net.rs:440-489 | there is an outcome exactly when the session ended `Paired`, exactly then one handler answered `Finalize`, and never a second one |
| `PairingHost.AttemptsAreBounded` | crates/entangle-pairing/src/net.rs:492-500 | with at most k handlers at a time attempts never exceed `max_attempts + k - 1`, and reaching the cap ends the session |
| `PairingHost.OutcomeIsProven` | crates/entangle-pairing/src/net.rs:440-489 | an outcome is the authenticated key of a connection that sent a proof over this session's code and nonce |
| `PairingHost.StepInv` | crates/entangle-pairing/src/net.rs:394-513 | the session invariant is preserved by every critical section |
| `PairingHost.OverdueEnds` | crates/entangle-pairing/src/net.rs:369-404 | a session over its time ends at the next look, and a frame that comes then is answered `Expired` unless the session had ended otherwise |
| `PairingTightness.BoundIsReached` | crates/entangle-pairing/src/net.rs:492-500 | for every cap and every number of concurrent handlers some run makes exactly that many failed attempts, so the bound is exact |
| `PairingAttempts.AttemptsAreRefusals` | crates/entangle-pairing/src/net.rs:418-500 | in every state of every run the counter is exactly the number of handlers that found the session live with an `Accept` frame and were refused, up to saturation |
| `PairingAttempts.WrongProofIsCounted` | crates/entangle-pairing/src/net.rs:440-500 | a handler that found the session live with anything but a proof of this code and nonce by the authenticated key is answered `BadCode` or `TooManyAttempts` and is one of the counted |
| `PairingAttempts.GuessesAreBounded` | crates/entangle-pairing/src/net.rs:418-500 | in a whole session at most `max_attempts + limit - 1` handlers find it live with anything but a proof, whatever frames arrive, so its code can be guessed that often and no more |
| `HostSession.Session.HandleInner` | crates/entangle-pairing/src/net.rs:394-427 | an ended session refuses everything unchanged, one past its time expires, and a live one offers itself to a `Hello`, pairs with exactly a proof, and counts any other `Accept`: one attempt more, saturating, answered `BadCode`, or `TooManyAttempts` and ended at the cap; the same as the machine's steps run to the reply |
| `HostSession.Session.VerifyAccept` | crates/entangle-pairing/src/net.rs:440-489 | accepts exactly a proof over code and nonce by the authenticated key with its own peer id, pairs once, and otherwise leaves the state alone |
| `HostSession.Session.RecordFailedAttempt` | crates/entangle-pairing/src/net.rs:492-500 | saturating count, and destruction of a live session at the cap |
| `HostSession.Session.ExpireIfDue` | crates/entangle-pairing/src/net.rs:504-513 | sets the expiry only on a live session past its time and reports whether it is expired |
| `HostSession.Session.constructor` | crates/entangle-pairing/src/net.rs:301-316 | the name is sanitized, at least one attempt is allowed, and the session starts live |
| `PairingAgreement.Agreement` | crates/entangle-pairing/src/mesh.rs:377-444 | a dialer that finishes against an honest session used that session's code and nonce; the session's outcome is exactly that dialer's key, peer id and name, and the dialer's record is exactly that host |
| `PairingAgreement.OneDialerFinishes` | crates/entangle-pairing/src/net.rs:440-489 | no two dialers ever finish against one session |
| `PairingAgreement.OutcomeIsTheDialer` | crates/entangle-pairing/src/net.rs:440-489 | a session that pairs with an honest device's key was dialled by that device with this session's code, whatever dishonest clients and servers do |
| `PairingAgreement.SignaturesAreAccountable` | crates/entangle-pairing/src/net.rs:592-602 | every honest signature in circulation was made by a dialer over the code typed into it or by a session over its own code and nonce |
| `PairingAgreement.NetStep` | crates/entangle-pairing/src/net.rs:570-631 | the network invariant is preserved by every move of honest and dishonest parties |
| `PairingAgreement.FinishedOnProof` | crates/entangle-pairing/src/net.rs:609-633 | a dialer finishes only on a counter-signature of the key it is connected to over the code typed into it and the nonce it was offered, so whoever it pairs with knows the code |
| `PairingAgreement.DialerRecordsTheConnection` | crates/entangle-pairing/src/net.rs:570-633 | in every execution a finished dialer recorded the key of its own connection under that key's fingerprint, whoever answered |
| `PairingCompleteness.RightCodeCanFinish` | crates/entangle-pairing/src/mesh.rs:402-444 | from any state in which a dialer with the right code faces a live session with a free handler, some moves let it finish, and record and outcome then name each other; with `Agreement`, finishing is possible exactly with the right code |
| `Identity.PayloadInjective` | crates/entangle-pairing/src/envelope.rs:69-75 | equal signing payloads come from the same code and nonce |
| `Identity.SigningPayload` | crates/entangle-pairing/src/envelope.rs:69-75 | the buffer filled by two copies is nonce, little-endian code, zeros |
| `Identity.SanitizeIdempotent` | crates/entangle-pairing/src/net.rs:639-648 | a sanitized name has no control characters, at most 64 bytes, and is left alone by a second pass |
| `Identity.SanitizeDisplayName` | crates/entangle-pairing/src/net.rs:639-648 | the loop computes the longest prefix of the control-free text that fits |
| `Identity.PayloadLayout` | crates/entangle-pairing/src/envelope.rs:69-75 | the 64 bytes are the nonce, the code with its least significant byte first, and zeros |
| `Identity.SanitizeKeeps` | crates/entangle-pairing/src/net.rs:639-648 | a name is left alone exactly when its UTF-8 form has at most 64 bytes and it has no control character |
| `PeerStoreSafety.FileIsCommittedMutations` | crates/entangle-peers/src/store.rs:125-252 | with any number of processes and a crash or I/O failure possible at any step, the file is always the committed mutations applied in lock order, each to the valid entries before it, and never partially written |
| `PeerStoreSafety.EveryPeerIsUpToDate` | crates/entangle-peers/src/store.rs:125-147 | peer by peer, the file holds what every committed operation on that peer made of its initial entry: no update is lost |
| `PeerStoreSafety.SuccessIsCommitted` | crates/entangle-peers/src/store.rs:125-147 | a call that returned was committed exactly if it returned success, and none is committed twice |
| `PeerStoreSafety.SuccessLeavesMemoryOnDisk` | crates/entangle-peers/src/store.rs:125-147 | at the step that reports success the file is the writer's map |
| `PeerStoreSafety.CommitsAreFinal` | crates/entangle-peers/src/store.rs:205-252 | the order of lock acquisitions is only extended and a commit is never taken back |
| `PeerStoreSafety.NoDeadlock` | crates/entangle-peers/src/store.rs:125-147 | a call that cannot move waits for a lock holder that can |
| `PeerStoreSafety.StepInv` | crates/entangle-peers/src/store.rs:125-252 | lock, log and file invariants are preserved by every step and crash |
| `PeerStoreSafety.KeysMatchIds` | crates/entangle-peers/src/store.rs:125-179 | in every reachable state nobody is read from the file under a key that is not theirs, and a file the store wrote holds such an entry only as a committed `Add` asked for |
| `PeerStoreSafety.RevokedStaysRevoked` | crates/entangle-peers/src/store.rs:86-95 | in every reachable state a peer whose revocation was committed reads as revoked, and a removed one is absent, until it is added again |
| `PeerStoreSafety.AddedIsFound` | crates/entangle-peers/src/store.rs:125-147 | in every reachable state a committed `Add` of a peer under its own key is what is read back, with the time of the last touch, until the peer is added, revoked or removed |
| `PeerStoreSafety.FailuresAreTrue` | crates/entangle-peers/src/store.rs:125-147 | in every run only failed I/O is reported as such, only a file that is no peers document as a parse error, and `NotFound` only for revoking a peer the file does not hold |
| `PeerStore.NoUpdateLost` | crates/entangle-peers/src/store.rs:54-112 | replaying any log decomposes into independent per-peer histories |
| `PeerStore.MutateExactly` | crates/entangle-peers/src/store.rs:86-112 | only revoking an absent peer fails, and every operation changes its own peer's entry as stated and no other |
| `Peers.LoadSave` | crates/entangle-peers/src/store.rs:161-195 | loading a saved map gives back exactly its valid entries |
| `Peers.SaveUnique` | crates/entangle-peers/src/store.rs:182-195 | the saved document depends only on the map, not on its iteration order |
| `Peers.LoadLoop` | crates/entangle-peers/src/store.rs:161-179 | the load loop keeps the last valid entry of each id and skips invalid ones |
| `Peers.LoadedDerives` | crates/entangle-peers/src/store.rs:161-179 | whoever is loaded is the last entry of its id whose text is 64 hex digits of a key with that fingerprint: an entry under somebody else's key is never trusted |
| `Peers.DerivingLoads` | crates/entangle-peers/src/store.rs:161-179 | the last such entry of an id is the one that is loaded |
| `Peers.SavedInOrder` | crates/entangle-peers/src/store.rs:181-195 | the saved document lists exactly the entries of the map, each once, by ascending peer id |
| `PeerStoreService.SortedPeers` | crates/entangle-peers/src/store.rs:182-195 | the sorted enumeration written to disk |
| `PeerStoreService.Store.LockedMutate` | crates/entangle-peers/src/store.rs:125-147 | success exactly when lock, read, parse, mutation and write succeed; then file and map are the operation applied to the valid entries of the old file; otherwise the file is untouched and the error is that of the first stage that failed |
| `Remote.DispatchIsVerdict` | crates/entangle-scheduler/src/remote.rs:166-233 | dispatching over the wire to an honest server gives exactly what running the same plugin and input there gives |
| `Remote.OutputOrRejection` | crates/entangle-scheduler/src/remote.rs:382-506 | an output arrives exactly when the peer's kernel produced one within both sides' limits, and it is that output; every other answer is a structured rejection, never a decode or size error |
| `Remote.FramedDispatchIsVerdict` | crates/entangle-scheduler/src/remote.rs:166-233 | the same with both directions carried as frames under the transport's cap |
| `Remote.RespondIsVerdict` | crates/entangle-scheduler/src/remote.rs:399-506 | the server's answer to an honest request is the reference answer for its task |
| `Remote.LinkIsFaithful` | crates/entangle-mesh-iroh/src/framing.rs:48-120 | a framed exchange under any caps either fails or delivers the handler's very answer |
| `Remote.CappedInputEncodes` | crates/entangle-scheduler/src/wire.rs:237-247 | every input up to 16 MiB can be encoded with a plugin id of up to 65,000 bytes |
| `Remote.AnswerArrives` | crates/entangle-scheduler/src/remote.rs:382-396 | what the caller reads is the server's answer, or the fallback when that did not fit a frame |
| `Remote.OutputWithinTask` | crates/entangle-scheduler/src/remote.rs:212-233 | whatever a peer answers, a longer output than requested is never returned |
| `Remote.NewServer` | crates/entangle-scheduler/src/remote.rs:317-332 | the default server is within the ceilings and the most permissive one that is |
| `Remote.BuiltServers` | crates/entangle-scheduler/src/remote.rs:317-347 | whatever the builders are given, each limit is what was asked for, up to 5 minutes and 16 MiB |
| `Remote.WithMaxTimeout` | crates/entangle-scheduler/src/remote.rs:335-338 | the timeout ceiling becomes what was asked for, never above five minutes, and nothing else changes |
| `Remote.WithMaxBytes` | crates/entangle-scheduler/src/remote.rs:343-347 | the size ceilings become what was asked for, never above 16 MiB, and nothing else changes |
| `Remote.RequestRefused` | crates/entangle-scheduler/src/remote.rs:399-455 | strangers are refused before anything is decoded, then what does not decode, an input over the server's limit, and a plugin that is no id, each with its code |
| `Remote.DispatchExactly` | crates/entangle-scheduler/src/remote.rs:166-238 | whoever answers, an output is returned exactly when the answer decodes within its limit to one; every other case has its own error |
| `Dispatcher.EndToEnd` | crates/entangle-scheduler/src/dispatcher.rs:184-278 | when placement picks a peer with an honest server, an output is returned exactly when that peer's kernel produced one within the limits, it is that output, and the peer is the best live worker |
| `Dispatcher.OutputWithinLimit` | crates/entangle-scheduler/src/dispatcher.rs:184-278 | no output exceeds its limit, and the re-check after a remote answer never fires |
| `Dispatcher.PlacedExactly` | crates/entangle-scheduler/src/dispatcher.rs:201-215 | with workers a task goes to the best of them; with none it is placed here exactly when it asks for no cores and no memory |
| `Dispatcher.LocalResult` | crates/entangle-scheduler/src/dispatcher.rs:192-277 | a task that runs here succeeds exactly when input and output are within their limits and the kernel succeeds; it returns that very output and placement, and each failure has its error |
| `Dispatcher.OtherResult` | crates/entangle-scheduler/src/dispatcher.rs:192-256 | an oversized input is refused before placement, a failed placement reported, a remote placement without a client refused in strict mode, and the client's answer passed on otherwise |
| `Wire.RequestRoundTrip` | crates/entangle-scheduler/src/wire.rs:237-264 | decoding inverts encoding up to the request's own input limit |
| `Wire.ResponseRoundTrip` | crates/entangle-scheduler/src/wire.rs:271-286 | decoding inverts encoding up to the caller's output limit |
| `Wire.PrefixFree` | crates/entangle-scheduler/src/wire.rs:289-318 | no accepted frame is a proper prefix of another |
| `Wire.TruncationRefused` | crates/entangle-scheduler/src/wire.rs:289-318 | every truncation of an accepted request or response is refused |
| `Wire.OtherVersionReported` | crates/entangle-scheduler/src/wire.rs:289-309 | once the leading varint reads as another version, that version is reported whatever follows |
| `Wire.CappedOutputFits` | crates/entangle-scheduler/src/wire.rs:237-247 | every output up to 16 MiB fits one response frame |
| `Wire.RequestLayout` | crates/entangle-scheduler/src/wire.rs:56-73 | the bytes of a request, field by field |
| `Wire.ResponseLayout` | crates/entangle-scheduler/src/wire.rs:92-162 | the bytes of an answer: version, tag, and output or error number and message |
| `Wire.OversizeRefused` | crates/entangle-scheduler/src/wire.rs:237-300 | frames over 16 MiB and 64 KiB are neither sent nor looked at |
| `Framing.Writer.WriteFrame` | crates/entangle-mesh-iroh/src/framing.rs:48-77 | writes header and payload, or refuses an oversize payload without touching the stream |
| `Framing.Reader.ReadFrame` | crates/entangle-mesh-iroh/src/framing.rs:80-120 | the chunked loop computes the specified result and consumes exactly the specified bytes |
| `Framing.FrameRoundTrip` | crates/entangle-mesh-iroh/src/framing.rs:48-120 | reading a written frame followed by any bytes gives the payload and leaves exactly those bytes |
| `Framing.OverCapStopsAtHeader` | crates/entangle-mesh-iroh/src/framing.rs:93-98 | an over-cap header fails having consumed four bytes |
| `Framing.StrictPrefixRefused` | crates/entangle-mesh-iroh/src/framing.rs:84-119 | every strict prefix of a frame is a protocol error |
| `Framing.StreamRoundTrip` | crates/entangle-mesh-iroh/src/framing.rs:48-120 | a stream of any number of frames is cut at exactly the frame boundaries |
| `Framing.FrameLayout` | crates/entangle-mesh-iroh/src/framing.rs:48-76 | a frame is the payload's length in four bytes, most significant first, then the payload |
| `Topic.Matches` | crates/entangle-ipc/src/topic.rs:48-86 | the matcher with its suffix strip and byte fast path decides exactly the segment-list meaning, for all strings |
| `Topic.RejectedPatternsMatchNothing` | crates/entangle-ipc/src/topic.rs:104-131 | a pattern the validator rejects matches no valid topic |
| `Topic.UsablePatterns` | crates/entangle-ipc/src/topic.rs:104-131 | a pattern matches some valid topic exactly when the validator accepts it and every segment with a star is a whole wildcard |
| `Topic.TopicsAre` | crates/entangle-ipc/src/topic.rs:18-29 | the texts that are topics, by their characters and dots |
| `Topic.PatternsAre` | crates/entangle-ipc/src/topic.rs:104-131 | the patterns that pass validation, by their characters, dots and the place of `**` |
| `Biscuit.AttenuationNarrows` | crates/entangle-biscuits/src/verifier.rs:202-245 | for any block texts, a token accepted with blocks appended is accepted without them, with the same capabilities and holder, and every limit, pin and marker kept or tightened |
| `Biscuit.ExtractFacts` | crates/entangle-biscuits/src/verifier.rs:83-92 | the loop over blocks computes the specified facts |
| `Biscuit.ScanLoop` | crates/entangle-biscuits/src/verifier.rs:100-166 | the loop over the lines of a block computes the specified facts or the first error |
| `Biscuit.VerifyExactly` | crates/entangle-biscuits/src/verifier.rs:202-245 | a token verifies exactly when its blocks are well-formed, it has not expired, it names no holder or this peer, and its authority block grants what is needed; the first that fails is the error |
| `BiscuitRoundTrip.PrintScanExact` | crates/entangle-biscuits/src/verifier.rs:100-187 | scanning a printed claim set as the authority block yields exactly the direct fold of the claims if and only if no surface has a line feed |
| `BiscuitRoundTrip.PrintedBlockMeans` | crates/entangle-biscuits/src/claims.rs:37-53 | at any block index and from any facts, a printed block of one-line claims scans to their direct fold, including the refusal of grants outside the authority block |
| `BiscuitRoundTrip.ClaimReads` | crates/entangle-biscuits/src/claims.rs:37-47 | each claim's printed line is read back as that claim |
| `TokenMeaning.TokenMeans` | crates/entangle-biscuits/src/verifier.rs:83-166 | a minted and attenuated token is readable exactly when no appended block grants anything; its grants and holder are then those of the authority block, every limit the tightest of all blocks, and the first pin stands |
| `TokenMeaning.VerifiesExactly` | crates/entangle-biscuits/src/verifier.rs:202-245 | such a token verifies exactly when no appended block grants, the authority block names the capability, its last holder is this peer or nobody, and no block has expired |
| `TokenMeaning.HolderOnly` | crates/entangle-biscuits/src/verifier.rs:219-232 | a token made out to one peer verifies at no other, whatever is appended to it |
| `TokenMeaning.NotGrantedElsewhere` | crates/entangle-broker/src/broker.rs:286-327 | the broker grants nothing on such a token at another peer and stays as it is |
| `TokenMeaning.AppendedGrantRefused` | crates/entangle-biscuits/src/verifier.rs:110-129 | a `peer` or `capability` fact anywhere in an appended block, with whatever space, semicolons and commas around it, refuses the token |
| `TokenMeaning.MalformedPinRefused` | crates/entangle-biscuits/src/verifier.rs:137-145 | a `dest_pin` fact in any block that is not the hex form of a peer id refuses the token |
| `Datalog.UnescapeEscape` | crates/entangle-biscuits/src/claims.rs:51-53 | the two-pass unescape inverts the two-pass escape for every string |
| `Bridge.BridgeNarrows` | crates/entangle-biscuits/src/bridge.rs:122-196 | a bridge cap accepted once, attenuated further and accepted again in any other context and at any other time keeps destination and capabilities, and no limit grows |
| `Bridge.AcceptedCapIsShortLived` | crates/entangle-biscuits/src/bridge.rs:180-187 | an accepted cap is unexpired and has at most an hour left exactly when the subtraction does not wrap, in particular on every clock from the epoch on |
| `Bridge.WrappedTtlAccepted` | crates/entangle-biscuits/src/bridge.rs:180-187 | a concrete token and clock for which the wrapped subtraction lets a longer lifetime through |
| `Bridge.AttenuatedTokenIsBridge` | crates/entangle-biscuits/src/bridge.rs:202-214 | appending the five mandatory facts to a verified token without a pin gives an accepted bridge cap with the same capabilities |
| `Bridge.AcceptedExactly` | crates/entangle-biscuits/src/bridge.rs:122-196 | a bridge cap is accepted exactly when the token verifies, carries the marker and all four limits, is pinned to this destination and stays within the ceilings; what is returned are the token's own values |
| `Bridge.RefusedBecause` | crates/entangle-biscuits/src/bridge.rs:122-196 | why a verified token is refused, in order |
| `CrossNodeGrant.NeverABypass` | crates/entangle-broker/src/broker.rs:286-327 | a biscuit-backed grant is given exactly when the first accepting trust root's token verifies for the capability and the manifest declares it, it is the local grant, a refused token leaves the broker and its log untouched, and a verified one leads to the local grant's own refusal |
| `CrossNodeGrant.AttenuationNeverEnables` | crates/entangle-broker/src/broker.rs:286-327 | for any list of trust roots, a grant given with blocks appended is given, the same, without them |
| `CrossNodeGrant.TokenGrantsOnlyNamed` | crates/entangle-broker/src/broker.rs:312-323 | a token printed from claims naming some capabilities verifies for no other capability |
| `Placement.ChooseIsBest` | crates/entangle-scheduler/src/placement.rs:48-130 | the choice is exactly the eligible worker of highest finite score and least peer id among ties; the two errors mean exactly no workers and none eligible |
| `Placement.PermutationIrrelevant` | crates/entangle-scheduler/src/placement.rs:98-112 | every permutation of the input gives the same choice |
| `Placement.OrderIrrelevant` | crates/entangle-scheduler/src/placement.rs:98-112 | so does every other enumeration of the same workers |
| `Placement.UnchosenIrrelevant` | crates/entangle-scheduler/src/placement.rs:48-130 | removing an unchosen worker changes nothing |
| `Placement.ScoreBounded` | crates/entangle-scheduler/src/placement.rs:80-95 | no advert scores above 2.5, whatever its cost and load |
| `Placement.ScoreMonotone` | crates/entangle-scheduler/src/placement.rs:64-95 | nearer, faster, less loaded and cheaper never scores lower |
| `Placement.SatisfiesExactly` | crates/entangle-scheduler/src/placement.rs:133-178 | a worker is acceptable exactly when none of the listed deficits holds, case by case |
| `Placement.PlacedWhereItFits` | crates/entangle-scheduler/src/placement.rs:48-129 | a task is placed on a worker that lacks nothing it asks for, and turned away exactly when each lacks something or has no finite score |
| `Placement.ScoreExactly` | crates/entangle-scheduler/src/placement.rs:62-96 | the score of a sane worker in closed form |
| `Placement.PoisonedScore` | crates/entangle-scheduler/src/placement.rs:62-96 | a poisoned advert scores as the sane one it is clamped to, and an infinite cost has no finite score |
| `Pool.RunInv` | crates/entangle-scheduler/src/worker.rs:122-180 | in every run the pool stays within its cap and holds only validated adverts |
| `Pool.NoMatchMeansNone` | crates/entangle-scheduler/src/worker.rs:144-152 | placement over the live view fails with `NoMatch` exactly when there are live workers and none satisfies the spec |
| `Pool.EvictionInvisible` | crates/entangle-scheduler/src/worker.rs:174-180 | eviction never changes a later live view exactly when it drops no entry that view still shows |
| `Pool.LongTtlInvisible` | crates/entangle-scheduler/src/worker.rs:174-180 | eviction with a time-to-live of at least t never changes live(t), now or later |
| `Pool.WorkerPool.UpsertWorker` | crates/entangle-scheduler/src/worker.rs:122-132 | admits valid adverts of known peers always and of new peers below the cap, else changes nothing |
| `Pool.WorkerPool.RemoveWorker` | crates/entangle-scheduler/src/worker.rs:135-137 | removes the entry and returns what it was |
| `Pool.WorkerPool.LiveWorkers` | crates/entangle-scheduler/src/worker.rs:144-152 | exactly the workers updated within the time-to-live, in any order, one for each live entry and nobody twice |
| `Pool.WorkerPool.RemoveStaleWorkers` | crates/entangle-scheduler/src/worker.rs:174-180 | keeps exactly the entries within the time-to-live and counts the others |
| `Pool.LiveExactly` | crates/entangle-scheduler/src/worker.rs:122-180 | in every run the live view, from the history alone: a worker is shown exactly when its last admitted advert is that one, was not removed or evicted since, and is younger than the limit |
| `Resync.ResyncedSlots` | crates/entangle-bin/src/main.rs:438-459 | with at most `max_workers` eligible sightings the resynced pool is the same for every iteration order: new valid adverts, old slots of peers whose new advert is invalid, nobody else |
| `Resync.MembersAreDesired` | crates/entangle-bin/src/main.rs:438-459 | its members are exactly the trusted, non-local, hardware-advertising peers if and only if each has a valid advert or was in the pool before |
| `Resync.InvalidAdvertStaysOut` | crates/entangle-bin/src/main.rs:438-459 | a trusted peer advertising NaN cores shows that the condition is needed |
| `Resync.DesiredKeys` | crates/entangle-bin/src/main.rs:444-448 | the desired map has exactly the trusted, non-local, hardware-advertising peers of the snapshot |
| `Resync.MembersStayTrusted` | crates/entangle-bin/src/main.rs:381-459 | every mix of events, resyncs and evictions from an empty pool keeps all members trusted and non-local |
| `Resync.ResyncPool` | crates/entangle-bin/src/main.rs:438-459 | the two loops compute a resync in the order they walked the map |
| `Resync.SightingTaken` | crates/entangle-bin/src/main.rs:381-433 | a sighting enters the pool exactly when its peer is not this node, is in the allowlist and not revoked, advertises a sane core count, and is a member or there is room; otherwise nothing changes |
| `Resync.GoneIsOut` | crates/entangle-bin/src/main.rs:381-407 | a peer that disappears is taken out and nobody else is touched |
| `Resync.DesiredIsLast` | crates/entangle-bin/src/main.rs:444-448 | of several sightings of a joinable peer the last with hardware counts, field by field |
| `Resync.MembersWereSeen` | crates/entangle-bin/src/main.rs:381-459 | along every feed each member's advert is what a sighting of that peer said, at the time it came in |

## Left out

- QUIC, mDNS, Unix sockets, the RPC server and the command line: plumbing around the modelled calls.
- The Wasm host, WIT bindings and example plugins: running a plugin is an arbitrary function of id, input and timeout.
- Signature and keyring checks of a load, and its reads from disk: one boolean outcome each.
- Lifecycle events on the IPC bus and `tracing` output: not observed by any modelled operation.
- The copy-paste pairing flow and `make_code_commit`: a simpler state machine with the same cryptography.
- JSON size limits of pairing frames: a frame is a message or undecodable.
- Durability of the rename across a power failure: a crash here is the end of a process.
- In-memory peer stores without a path, and the entry `remove` returns: the closure's effect on the map is modelled.
- Reads of the peer store's map between calls: they take no part in any update.
- Stream errors other than the end of the stream: framing sees a byte sequence that ends.
- Exact f32 rounding and the order of signed zeros in scores.
- The texts of errors and of a placement's reason: rejections carry any wording.
- Wall-clock times of audit events.
- Metrics, telemetry, the gateway, sandbox probes, OCI and Tailscale scaffolds, log rotation and cache collection: easy members.
- Resync.ResyncPool: the clock is below `Duration::MAX` nanoseconds, so `live(Duration::MAX)` shows every entry; it runs without interruption, although the maintenance loop's eviction can fall between its pool operations.
- Fairness: the progress theorems say that some thread can move, not that each one eventually does; writer preference of the registry lock is not modelled.
- Manifest.ValidateAccepts: TOML tables are a value type of their own, so the concrete TOML grammar is not covered.
