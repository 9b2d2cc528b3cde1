# goCloak verification model

goCloak carries TCP connections to named services over a userspace WireGuard
tunnel. A server holds a peer list in a YAML file, reloads it while connections
run, and must at every moment serve exactly the peers in the list: a revoked peer's
grants, limiter, connections and keypair all have to go, and a peer that stays
must not notice. This project models that logic in Dafny and proves what it
promises.

## How it is organised

| file | what it models |
|---|---|
| `Limiter.dfy`, `Admission.dfy` | the per-peer limiter (`peerLimiter`): lazy token bucket, concurrency counter, live set; what it may grant at most, and what it owes |
| `Addresses.dfy`, `Peers.dfy` | addresses and their spellings, validation of the peer list, the policy index |
| `Device.dfy` | the tunnel device as two tables, and the configuration blocks written to it, line by line |
| `Reload.dfy`, `DiffApplication.dfy`, `Convergence.dfy`, `History.dfy` | the diff of two lists, its application to the device call by call, where it converges, and runs of reloads |
| `ServerProtocol.dfy`, `ServerInvariant.dfy`, `ServerTheorems.dfy` | connection handlers, hot reload and shutdown as one machine of atomic steps |
| `HandlerFrames.dfy`, `HandlerStories.dfy`, `ReloadTheorems.dfy`, `DrainTheorems.dfy` | on that machine: what each handler did and why, whose limiter is in force, what draining closes |
| `Server.dfy` | the reload callback on the server's own objects |
| `Watcher.dfy` | the peers-file watcher, and file writes racing a reload |
| `ClientEndpoint.dfy`, `DialOutcomes.dfy` | concurrent dials re-resolving one server address, and how each of them ends |
| `HelloWatchdog.dfy` | one `Dial` racing its context watchdog |
| `Wire.dfy`, `Messages.dfy` | the hello frames and the newline-delimited messages |
| `EndToEnd.dfy`, `ConnectionOutcomes.dfy` | one proxied connection, byte by byte, from application to backend, and what each status answers |
| `Text.dfy`, `YamlMessages.dfy`, `Scrub.dfy` | substring search, decoder message redaction, reference scrubbing |
| `Prelude.dfy` | optional values, bytes, filters, counts and sums |

Code that updates fields is a class whose methods are proved against functions;
the theorems are about those functions. Concurrent code is a machine: a `Step` is
one critical section, one close, or one blocking call returning, and a theorem
quantifies over every legal run of steps. Everything outside the program (the
file, the resolver, secret stores, device failures, clocks, how streams are cut
into chunks) is an argument or a step, so a theorem covers every choice of it.

## Assumptions

- The device follows WireGuard's Cross-platform Interface, section
  "Configuration Protocol": `allowed_ip` takes the address from its previous
  owner, `replace_allowed_ips` clears the peer's addresses first, `update_only`
  does not create a peer and lines after it for an absent peer have no effect,
  `remove` deletes the peer and its addresses. A call that reports an error has taken
  some prefix of its lines, possibly all of them. `ClientEndpoint.DeviceFollowsAddress`
  alone restricts that, by a set of places where erring endpoint calls may stop
  (`FaultsAmong`), and `ClientEndpoint.FollowsExactly` says which sets will do.
- Base64 decoding is injective on the public keys in use (`InjectiveOn`,
  `InjectiveKeys`): duplicates are detected on the text (config.go:278).
- Distinct versions of the peers file have distinct stat identities, none of
  them the zero identity (`DistinctIDs`). A version that was replaced or deleted
  may be put back at any time with its identity, by a rename or a copy that keeps
  the modification time; theorems that need to restrict this name the versions that may
  be put back over an attempt that examined them (`OnlyReturn`). A stat or a read
  may fail at any time, and a read overtaken by a write may return anything.
- Messages given to the YAML sanitizer have yaml.v3's shapes where a theorem
  names a shape. `SanitizeIdempotent` and `OutOfRangeExactly` hold for every string.
- A stream delivers in order what was written, in any chunks, and may stop anywhere.
- Token counts are exact reals.

## Findings

- A recorded stat identity that is still current does not always mean that the
  last attempt read what is in the file. It does if the identity is not the
  zero one, the attempt's read did not fail, and the file's version is not one
  that is put back after an attempt examined it (`Watcher.IdentityTrusted`), and
  all three are needed (`Watcher.TrustworthyExactly`). When the stat succeeds and
  the read fails, the identity is recorded all the same, so the version in the file
  is not in force and nothing tries again (`Watcher.FailedReadBlindSpot`). When
  the examined version is replaced before the read and put back after it, its
  identity is current although the replacement was read and, if valid, is in force
  (`Watcher.RestoredVersionBlindSpot`). When the file is missing at the stat,
  written before the read and deleted after it, the zero identity is current
  although the attempt read a version that is gone (`Watcher.MissingFileBlindSpot`).
- An endpoint call that reports an error after the device took its endpoint line
  leaves the device at an address the client did not record
  (`ClientEndpoint.LateFaultDiverges`); that is the only way they part
  (`ClientEndpoint.FollowsExactly`).
- The slice in the unknown-field branch of `sanitizeYAMLMessage` is out of range
  for exactly one shape, a field message with no name and a single space
  (`YamlMessages.OutOfRangeExactly`). The decoder does not write it.
- A scalar type mismatch whose tag spells the already-set marker is kept
  whole, with the scalar's first characters; every other one is redacted
  (`YamlMessages.ScalarMismatchRedacted`).
- `scrubRef` can put a tail back: some message comes out with it exactly when an
  inserted placeholder revives the shortest tail (`Scrub.CleanExactly`, for
  every non-empty reference). The placeholder revives a tail it can overlap and
  agree with, at any offset, unless it would start inside a tail that repeats itself
  at that offset (`Scrub.Revives`). Without brackets that leaves the substrings
  of the placeholder; a path such as `/etc/psk[1]` is never revived
  (`Scrub.IndexedPathClean`), a name in an external store that ends in `[` always
  is (`Scrub.BracketTailSurvives`).
- Where comment and code differ the model follows the code. The comment at
  internal/msg/msg.go:140-144 speaks of one byte more than `MaxMessageLen`; the
  buffer never holds more than `MaxMessageLen` bytes. The comment at
  server.go:530-532 says bytes read from the peer; the count is of bytes the
  backend connection accepted, and after a failed write the two differ.

## Model

| member | source | states |
|---|---|---|
| `ServerTheorems.PassedAreClosedOrRegistered` | server.go:458-494 | In every interleaving, when no refresh or drain is under way, a connection that passed the re-check and is not unwinding is closed on both sides or registered with the limiter in force at its address. |
| `ServerTheorems.OpenConnectionsAreListed` | server.go:705-771 | Once the published list has been refreshed, a connection past the re-check with a side still open belongs to an (address, public key) pair of the list in force. |
| `ServerTheorems.ReloadSparesListed` | server.go:755-771 | Any step of the reload that closes a side of a connection closes one whose limiter's pair is absent from the new list. |
| `ServerTheorems.SlotsAccounted` | server.go:1072-1105 | In every reachable state each limiter's counter equals the number of handlers between acquire and release, never exceeds the largest cap ever applied to it, and its live set holds only such handlers. |
| `ServerTheorems.ReleaseHasASlot` | server.go:1099-1105 | Whenever a handler is about to release there is a slot counted, so the underflow guard never fires. |
| `ServerTheorems.HandlerStepsDecrease` | server.go:351-519 | Every step of any handler strictly decreases one measure over all handlers. |
| `ServerTheorems.OtherStepsDoNotRaise` | server.go:645-686 | No step of the reload, of shutdown or of the watcher raises that measure; only accepting a connection does. |
| `ServerTheorems.HandlersFinish` | server.go:325-335 | From the moment the accept loop ends, every continuation contains at most a bounded number of handler steps, whatever reload and shutdown do in between. |
| `ServerTheorems.NoHandlerStuck` | server.go:537-567 | After cancellation an unfinished handler always has a next step that waits for nothing but deadlines and closed connections, also one that registered after the live sets were snapshotted. |
| `ServerTheorems.PipeWaitsExactly` | server.go:537-567 | A proxying handler has to wait for the network exactly when nothing is cancelled, both sides are open and both copies run. |
| `ServerTheorems.DeviceClosesLast` | server.go:249-310 | Outside the timeout branch, when the device is closed the wait group is at zero and every handler has returned with both its connections closed. |
| `ServerTheorems.NoReloadDuringDrain` | server.go:285-310 | Once the watcher has been waited for, no reload step is possible and nothing more is accepted. |
| `DrainTheorems.DrainClosesRegistered` | server.go:645-686 | A connection registered with a limiter in force when the drain begins is, once the drain is over, closed on both sides or in its own deferred calls, also when the drain timed out. |
| `HandlerStories.DialledWasGranted` | server.go:431-441 | In every run, a handler that is dialling or has dialled resolved the service it had read at a moment when the list last published held a peer at the address its connection came from, with that service among its grants. |
| `HandlerStories.GrantDecides` | server.go:431-441 | Resolving, a handler goes on to dial exactly if the list last published grants the service to the peer at its address; otherwise it refuses and cannot dial. |
| `HandlerStories.BeyondHasDialled` | server.go:443-494 | A handler that is registering, re-checking, answering OK or proxying has dialled a backend. |
| `HandlerStories.AnswersExactly` | server.go:382-502 | Over every run a handler answers only at one of five points: over its limits, after a malformed hello, after a denied lookup, after a failed dial, or admitted; an unknown address, a hello that never came and a failed re-check are met with silence. |
| `HandlerStories.RefusalsAnswered` | server.go:388-450 | A connection over its limits, with a malformed hello or without a backend does get its answer. |
| `HandlerStories.ProxiedInOrder` | server.go:355-506 | A proxied connection found its limiter, was admitted, read its hello, was granted, dialled, registered, re-checked and answered OK, in that order. |
| `HandlerStories.ListInForce` | config.go:796-815 | The list consulted is the one last published. |
| `HandlerStories.GrantedPeerCanBeServed` | server.go:351-506 | From every reachable state in which the server serves and its maps are those of the list, a new connection from a listed peer whose limiter admits it can be carried through to proxying for any service the peer is granted. |
| `ReloadTheorems.ListedPeerHasLimiter` | server.go:714-752 | Once the list last published has been refreshed, every listed peer's address has a limiter in force that is of the peer's own key and carries the peer's limits. |
| `ReloadTheorems.OnlyListedHaveLimiters` | server.go:714-766 | And no other address has one. |
| `ServerInvariant.StepKeepsInv` | server.go:351-519 | Every step of handlers, watcher and Run keeps slots, shapes of the deferred calls, live sets, maps, owed closes and shutdown order consistent together. What each handler's own steps decide is stated by the `HandlerStories` theorems. |
| `ServerInvariant.RunKeepsInv` | server.go:207-335 | So does every run. |
| `ServerInvariant.SwapReaps` | server.go:747-762 | A limiter that leaves the map in a refresh belonged to a pair that left the list. |
| `ServerInvariant.SwapPossible` | server.go:705-771 | In every state with a published list some rebuild is legal, so no reload is stuck at its swap. |
| `ServerInvariant.SwapCovered` | server.go:705-771 | The swap forgets no registration: whoever is registered with a limiter it drops is reaped. |
| `Server.Server.HandleReload` | server.go:779-832 | A failed reload changes no object. A good one leaves exactly the list's names and limiters, survivors keep their limiter and its connections under the new limits, departed limiters are drained with both sides of their connections closed, every other connection keeps both sides as they were, and the device is the diff's application followed by the pruning. |
| `Server.Server.ApplyReload` | server.go:825-831 | The good path of that, maps before device before cache. |
| `Server.Server.RefreshPeers` | server.go:705-771 | Maps are exactly those of the list, the connections of departed limiters are closed on both sides, every other connection is as it was. |
| `Server.Server.SwapMaps` | server.go:714-766 | The rebuild is one the protocol's swap allows, the limiters returned for reaping are those in force before and not after, and no live set changes. |
| `Server.RefreshedFrom` | server.go:714-766 | A map that gives each listed peer its own limiter or one not in force before is a swap the protocol allows, and its keys are those folded from the list. |
| `Server.Server.LimiterOf` | server.go:719-752 | Same key at the same address keeps the same limiter object under new limits; anyone else gets a fresh, full, idle one; no other limiter changes. |
| `Server.Server.BuildLimiters` | server.go:717-752 | Every listed peer gets the limiter it is due and no other address gets one. |
| `Server.Server.BuildNames` | server.go:716-720 | The name map is the one filled in list order. |
| `Server.Server.ReapAll` | server.go:768-770 | Every departed limiter ends with an empty live set and both sides of all it held closed. |
| `Server.Server.SyncDevice` | server.go:825-831 | Device and cache end as the diff's application followed by the pruning to the list's references. |
| `Limiter.BlockSpendBounded` | server.go:1047-1096 | Any block of consecutive calls, wherever it starts in a run and in any clock order, spends at most R(1+T) tokens, calls refused for concurrency included: R is the largest rate in force at an acquire of the block, T how far its clock readings go past the first. |
| `Admission.RefusedExactly` | server.go:1072-1087 | Under fixed limits and in any clock order, a call is refused for rate if and only if some earlier acquire starts a block whose spending, with one token more, exceeds R(1+T): the limiter grants all that the bound allows. |
| `Admission.SpacedCallsPass` | server.go:1072-1087 | Calls spaced at least 1/R apart are never refused for rate. |
| `Admission.BurstAfterIdleSecond` | server.go:1072-1087 | From any sound bucket, after one idle second as many acquires as the burst are not refused for rate, whatever the later clocks read. |
| `Limiter.AdmittedAfterWait` | server.go:1072-1096 | From any sound bucket, a call at least 1/R after the last refill is admitted if a slot is free, and else refused for concurrency. |
| `Admission.LimitsInForce` | server.go:1059-1070 | At every point of every run the limits are those last applied and the counter is the number of slots admitted and not given back. |
| `Admission.ConcurrencyExactly` | server.go:1088-1095 | A call not refused for rate is admitted exactly while fewer slots are held than the cap last applied. |
| `Limiter.TokensBounded` | server.go:1059-1087 | Over every run with non-negative limits tokens stay between zero and the burst. |
| `Limiter.ActiveBounded` | server.go:1088-1105 | Over every run the counter stays between zero and the largest cap applied. |
| `Limiter.RefillComposes` | server.go:1072-1082 | Two capped refills over adjacent intervals are one over their union. |
| `Limiter.RefusedCallsAreInvisible` | server.go:1072-1087 | Under fixed limits, deleting every call refused for rate leaves each other call's verdict, token count and slot count as they were, and no call of what remains is refused for rate. |
| `Limiter.AcquireSlots` | server.go:1088-1095 | Only an admitted call takes a slot, and only below the cap. |
| `Limiter.PeerLimiter.Acquire` | server.go:1072-1096 | One call refills, spends and counts as the specification says, whatever the clock; one token's worth of time after the last refill it is refused only for want of a slot; the live set is untouched. |
| `Limiter.PeerLimiter.SetLimits` | server.go:1059-1070 | Cap, rate and burst are the new limits' at once, tokens stay or are capped to the new burst, clock, count and live set survive. |
| `Limiter.PeerLimiter.constructor` | server.go:1047-1057 | A new limiter has its peer's limits, starts full and idle, with nothing registered. |
| `Limiter.PeerLimiter.Release` | server.go:1099-1105 | Gives one slot back, never below zero. |
| `Limiter.PeerLimiter.Track` | server.go:1107-1112 | Adds exactly one connection to the live set. |
| `Limiter.PeerLimiter.Untrack` | server.go:1114-1119 | Removes exactly one. |
| `Limiter.PeerLimiter.CloseLive` | server.go:1127-1141 | Empties the live set and closes both sides of everything that was in it. |
| `Convergence.ApplyDiffConverges` | server.go:846-908 | If the device's tables are those built from scratch from the old list and no call in applying the diff fails, they end as those built from scratch from the new list, also when peers swap or rotate addresses. |
| `Convergence.SyncedTables` | device.go:258-328 | Tables built from scratch hold exactly the list's keys and addresses, each key with its secret and owning its peer's address. |
| `Convergence.RemovalStage` | server.go:856-862 | After the removals the unchanged peers are final, the changed ones still present, and every remaining key is in the new list. |
| `Convergence.InstallsFinish` | server.go:863-883 | From there the additions and the changes finish the tables, in whatever order the list gives them. |
| `Convergence.PruneKeepsSynced` | server.go:940-955 | Pruning the secret cache to the list's references never leaves the device behind. |
| `Reload.DiffMembers` | config.go:629-655 | Added are the keys only the new list has, removed the keys only the old one has, changed the common keys whose entry differs. |
| `Reload.PatchYieldsNext` | config.go:629-655 | Patching the old list, by key, with the diff gives the new list. |
| `Reload.Equal` | config.go:214-236 | The field-by-field comparison is equality of the whole entry. |
| `Reload.DiffPeers` | config.go:629-655 | The loops over the two indexes compute the diff, in list order. |
| `Reload.IndexByKey` | config.go:630-637 | The index answers each key with the last entry carrying it. |
| `DiffApplication.Applier.ApplyDiff` | server.go:846-883 | Whatever other calls do: a peer whose own secret, block and call succeed ends with its key, secret and only its address on the device (a changed peer if it was on it), unless a later call of the diff names its key or address; a removed peer whose call succeeds is gone; no key appears except an added peer's or one whose own call erred; and success is reported exactly when every peer's own call succeeded. |
| `DiffApplication.ReportExact` | server.go:846-883 | Success is reported if and only if each removal's key decodes and its call succeeds, and each added or changed peer has a secret, a block that renders, and a call that succeeds. |
| `DiffApplication.EachInstall` | server.go:863-883 | The same for the specification, for any device failures: every peer whose own call succeeds is on the device with the secret that the cache or the store's first answer gives it. |
| `DiffApplication.DiffsDoNotOverlap` | config.go:629-655 | In the diff of two lists with distinct peers no call speaks after a peer's own, so the proviso above always holds. |
| `DiffApplication.Applier.RevokeAll` | server.go:856-862 | One removal per departed peer, each failing or not on its own. |
| `DiffApplication.Applier.InstallPeers` | server.go:863-883 | One block per peer, each failing or not on its own. |
| `DiffApplication.Applier.ApplyPeer` | server.go:888-908 | A peer whose secret cannot be had is not applied; otherwise its block is written. |
| `DiffApplication.Applier.ResolveSecret` | server.go:923-937 | A cached secret wins over the store, a new one is cached, a failure caches nothing. |
| `DiffApplication.Applier.PruneSecretCache` | server.go:940-955 | Exactly the references in use survive, with their values. |
| `History.ReportsReconstruct` | config.go:796-837 | Over every run of good and failed reloads, whatever the device did, folding the reported diffs over the initial list gives the list in force. |
| `History.MapsMatchList` | server.go:779-832 | After every run the name and limiter maps have exactly the list's addresses, each with its peer's name and key. |
| `History.NoKeyLeftBehind` | server.go:846-883 | After every run, with any device failures, each key on the device is in the list in force or its last removal reported an error. |
| `History.OnlyListedSecretsCached` | server.go:940-955 | After every run with a good reload only references of the list in force, and the server's own, have a cached secret. |
| `History.ListedSecretsStay` | server.go:910-937 | A cached secret keeps its value as long as every list names its reference, whatever the store would say. |
| `History.RunStaysSynced` | server.go:779-883 | Over every run in which no device call fails the device mirrors the list after each reload. |
| `Device.BlockMeaning` | device.go:258-328 | A rendered block installs the peer with its one address, taken from whoever had it, or, with update_only, refuses to create it. |
| `Device.RemoveMeaning` | device.go:195-204 | Removal leaves no entry and no address; removing an absent peer changes nothing. |
| `Device.EndpointMeaning` | device.go:206-230 | Moving an endpoint changes that endpoint only and creates nobody. |
| `Device.OnlyNamedKey` | device.go:235-256 | However far a block that names one key gets, it creates, removes and alters no other peer. |
| `Device.TunnelDevice.IpcConfig` | device.go:258-328 | Rejects exactly a bad key, secret, address outside the subnet, or unusable endpoint, else renders the lines in the order the protocol needs. |
| `Device.TunnelDevice.AddPeer` | device.go:180-182 | On success the peer has its secret, exactly its address, and its endpoint with the keepalive if it names one, and every other peer keeps its entry and its other addresses; a rejected block leaves the device alone. |
| `Device.TunnelDevice.UpdatePeer` | device.go:188-190 | The same for a peer that is on the device, and nothing at all for one that is not. |
| `Device.TunnelDevice.Remove` | device.go:195-204 | Succeeds exactly if the key decodes and the call does not err; an undecodable key leaves the device alone. |
| `Device.TunnelDevice.MoveEndpoint` | device.go:217-230 | Succeeds exactly if the key decodes, the address is usable and the call does not err; an unusable address leaves the device alone. |
| `Peers.LoadPeersConfig` | config.go:254-299 | Accepts exactly the lists whose entries have a valid name, key, reference, limits and grants and a tunnel address from 10.99.0.2 to 10.99.0.254, no two sharing a name, key or address in any spelling, and no grant leading to the unspecified address. The i-th peer carries the i-th entry's fields: the unmapped address, the two limits with 32 and 10 for zero, and its services' unmapped backends. The policy answers each listed address with that peer's grants and every other with none. |
| `Peers.AtMost253Peers` | config.go:323-335 | An accepted list has at most 253 peers. |
| `Peers.NewPolicy` | policy.go:47-85 | Succeeds exactly on usable grants and distinct addresses, and its index answers every lookup as a search of the list does. |
| `Peers.IndexAnswersSearch` | policy.go:88-101 | Looking an address up in an index of the list is searching the list. |
| `Peers.SpellingIrrelevant` | policy.go:88-101 | An address in its IPv4-mapped form, section 2.5.5.2 of RFC 4291, resolves to the same grants. |
| `Peers.ValidatePeer` | config.go:305-380 | Accepts exactly the valid entries, carries over their fields with 32 and 10 for absent limits, and otherwise reports a check that fails with every earlier one passed; grants come last. |
| `Peers.ValidateGrants` | config.go:351-369 | Accepts exactly the grants that are all valid, with every backend unmapped, and otherwise reports one that is not. |
| `Peers.CopyGrants` | policy.go:66-82 | Copies the grants if all are usable, else fails. |
| `Peers.ClashRejects` | config.go:270-290 | A name, key or address already taken rejects every list that contains both entries. |
| `Addresses.BroadcastIsLast` | config.go:555-561 | The computed broadcast address is the last one of its prefix. |
| `Watcher.IdentityTrusted` | config.go:796-815 | In every interleaving of file writes with load attempts, restored versions and failing or torn reads included: at rest with the recorded identity current and not zero, the last attempt's read not failed and the file's version not one that is put back once an attempt examined it, that attempt read the version now in the file, and a valid one is in force. |
| `Watcher.FailedReadBlindSpot` | config.go:796-803 | From a watcher started on any valid version, any other or the same version can end up with its identity recorded and current, never read, and the earlier list in force. |
| `Watcher.RestoredVersionBlindSpot` | config.go:796-815 | From a watcher started on any valid version, any version that may return can end up with its identity recorded and current while the last attempt read, and if valid put in force, any other one (not the one started on). |
| `Watcher.MissingFileBlindSpot` | config.go:701-707 | From such a watcher, a run after which the zero identity is current although the attempt read a version. |
| `Watcher.TrustworthyExactly` | config.go:883-897 | Over all runs that put back, over an attempt that examined them, only the versions allowed to return: an identity that looks current can be trusted if and only if it is not the zero one, the attempt's read did not fail, and it is not the identity of a version allowed to return. |
| `Watcher.PeerWatcher.ReloadLocked` | config.go:796-815 | A failed load keeps the list and reports an empty diff, a good one publishes it with the diff that turns the old list into it; either records the identity taken before the read. |
| `ClientEndpoint.OneRefreshAtATime` | client.go:624-640 | In every interleaving of dials at most one holds the refresh slot. |
| `ClientEndpoint.OneApplicationPerGeneration` | client.go:642-658 | The generation counts applied re-resolutions, the n-th was applied by a dial that recorded generation n, and no dial applies two. |
| `ClientEndpoint.EachDialRefreshesOnce` | client.go:565-603 | In every interleaving a dial takes the refresh slot at most once and looks the name up at most once. What it does with the outcome is stated by the `DialOutcomes` theorems. |
| `DialOutcomes.FailsExactly` | client.go:570-603 | A dial has failed if and only if its budget ran out, or its own lookup had no answer or its own needed device call was refused or erred and it gave the slot back. |
| `DialOutcomes.ConnectsExactly` | client.go:570-578 | A dial is connected if and only if an attempt of its own succeeded, and then its refresh had not broken. |
| `DialOutcomes.BrokenDialStops` | client.go:590-600 | After its own lookup without an answer or its own failed device call a dial gives the slot back and does nothing else: no attempt, no connection. |
| `DialOutcomes.RefreshedDialAttempts` | client.go:594-603 | After a refresh that applied an answer, or was spared the lookup, a dial attempts again. |
| `DialOutcomes.LooksUpAfterMiss` | client.go:590-600 | A dial asks for the slot, looks the name up or moves the peer only after an attempt of its own failed. |
| `ClientEndpoint.DeviceFollowsAddress` | client.go:650-658 | Whenever the slot is free the device's peer points at the address the client has on record, whatever lookups failed and whatever device calls failed, as long as each erring endpoint call stopped before the device took the endpoint line. |
| `ClientEndpoint.LateFaultDiverges` | client.go:650-658 | From any fresh client with a host name, one erring call that took the endpoint line leaves the device, with the slot free, at an address the client did not record; no other fault is needed. |
| `ClientEndpoint.FollowsExactly` | client.go:650-658 | Over all runs of fresh clients with a host name in which erring endpoint calls stop only at places of a given set, the device follows the recorded address whenever the slot is free if and only if no place of the set reaches the endpoint line. |
| `ClientEndpoint.LiteralNeverMoves` | client.go:625-627 | With a literal address no run moves the peer, the address or the generation. |
| `ClientEndpoint.HolderRefines` | client.go:642-658 | The slot holder's separate steps compute what the uninterrupted refresh computes. |
| `ClientEndpoint.MoveOutcome` | device.go:217-230 | A refused endpoint change, or one that failed before the device took its endpoint line, leaves the peer where it was; a successful one moves it. |
| `ClientEndpoint.Endpoint.RefreshHeld` | client.go:642-658 | An advanced generation ends the refresh without a lookup, a failed lookup or device call leaves address and generation alone, and success records both. |
| `ClientEndpoint.Endpoint.Applied` | client.go:222-227 | Records the address and advances the generation whether or not the address changed. |
| `ClientEndpoint.Endpoint.Current` | client.go:212-216 | Reads address and generation as one. |
| `HelloWatchdog.ReturnedConnectionIsLeftAlone` | client.go:504-515 | A connection returned by Dial is never closed by its watchdog or by Dial and keeps no deadline, however the context ends afterwards, in every interleaving. |
| `HelloWatchdog.UnreturnedConnectionIsClosed` | client.go:414-445 | A connection that was opened is closed by Dial exactly when it is not returned. |
| `HelloWatchdog.StopCalledOnce` | client.go:454-490 | stop is never called twice, and has been called once by the return if the watchdog was ever registered. |
| `HelloWatchdog.ReturnsExactly` | client.go:454-515 | Dial returns the connection if and only if all five steps of the exchange went through, stop came before the watchdog started, and the deadlines were cleared. |
| `HelloWatchdog.CanSucceed` | client.go:414-515 | After any failed attempts and whatever the context, Dial can still succeed if its next attempt does and the watchdog does not start. |
| `HelloWatchdog.EveryStepAdvances` | client.go:414-515 | From any state, every step of Dial except a failed attempt brings it closer to its return and no other goroutine sets it back. |
| `HelloWatchdog.NeverStuck` | client.go:414-515 | Once the context has ended Dial can always go on to return by its own steps. |
| `EndToEnd.BackendGetsPrefix` | server.go:412-519 | For every interleaving, chunking and failure the backend reads a prefix of exactly the bytes the application wrote after Dial. |
| `EndToEnd.AppGetsPrefix` | server.go:537-567 | The application reads a prefix of exactly the bytes the backend wrote. |
| `EndToEnd.ConnectedMeansAdmitted` | client.go:454-490 | Dial succeeds only if the handler read that very name, passed its re-check and wrote OK. |
| `EndToEnd.LoggedCountsAreDelivered` | server.go:506-519 | The logged counts are the lengths of what was put through to either side, the status frame not counted. |
| `EndToEnd.NothingLostInFlight` | server.go:550-563 | A copy that has not ended has written, or still holds, every byte it read. |
| `EndToEnd.AskedIsName` | wire.go:124-149 | If the handler read a name at all it is the one asked for, and the stream is its request followed by the application's bytes. |
| `ConnectionOutcomes.StatusTellsWhy` | server.go:388-450 | A status that reaches the stream tells exactly how far the handler came: rate limited before a byte was read, malformed only if the name was cut short, denied for the very name asked and not granted, unavailable when granted and not dialled, OK when re-checked. A request that arrives whole is never malformed. |
| `ConnectionOutcomes.EverythingCanArrive` | server.go:351-519 | For every valid name and any data both ways some run delivers all of it. |
| `Wire.RequestExact` | wire.go:103-149 | A name is read, leaving the rest, if and only if it is valid and the stream is its encoding followed by that rest. |
| `Wire.HeaderDecides` | wire.go:124-149 | Reading fails as an I/O error exactly without a full header; with one, every stream that is not an encoding is malformed. |
| `Wire.ResponseExact` | wire.go:154-181 | A status is read back exactly when it is one of the five and was written in a frame. |
| `Wire.ReadHelloRequest` | wire.go:124-149 | For every chunking and every end of the stream, the outcome and the bytes left unread are those of the parser. |
| `Wire.ReadHelloResponse` | wire.go:168-181 | The same for the response. |
| `Wire.WriteHelloRequest` | wire.go:103-116 | An invalid name writes nothing; a valid one writes its frame, or as much of it as was accepted. |
| `Wire.WriteHelloResponse` | wire.go:154-163 | An undefined status writes nothing; a defined one its frame, or as much as was accepted. |
| `Wire.ReadFull` | wire.go:126-143 | Takes exactly the bytes asked for off the stream, or all there are when it ends short. |
| `YamlMessages.DuplicateKeyRedacted` | config.go:473-512 | Whatever the key says, a duplicate-key message becomes the same redacted one with both line numbers kept. |
| `YamlMessages.UnknownFieldGuarded` | config.go:473-512 | An unknown field's name survives exactly when the whole of it matches the field pattern, copies of the marker included. |
| `YamlMessages.MismatchRedacted` | config.go:473-512 | Any other message is replaced after its line number, unless it carries the already-set marker. |
| `YamlMessages.ScalarMismatchRedacted` | config.go:507-516 | A scalar type mismatch of the decoder's shape is redacted, whatever the scalar says, exactly when its tag does not carry the already-set marker. |
| `YamlMessages.CollectionMismatchRedacted` | config.go:507-516 | A sequence or mapping in a scalar's place is always redacted. |
| `YamlMessages.OutOfRangeExactly` | config.go:490-505 | Exactly which messages make the slice fail. |
| `YamlMessages.SanitizeIdempotent` | config.go:473-532 | Sanitizing twice is sanitizing once. |
| `YamlMessages.PrefixStable` | config.go:523-532 | Replacing what follows the line prefix leaves the line prefix. |
| `Scrub.CleanExactly` | server.go:977-1002 | For every non-empty reference, every message comes out free of it and of all its non-empty tails if and only if no placeholder revives the shortest tail. |
| `Scrub.ScrubbedClean` | server.go:977-1002 | Then neither the reference nor any non-empty tail of it remains in any message. |
| `Scrub.SomeTextSurvives` | server.go:977-1002 | Otherwise a message that mentions the shortest tail, with the parts of it that stick out of the placeholder around it, comes out with that tail. |
| `Scrub.OverlapRevives` | server.go:977-1002 | For a tail that does not begin with the placeholder's bracket, reviving is overlapping in agreement at any offset: one contains the other, or an end of one is a beginning of the other. |
| `Scrub.BracketFreeRevives` | server.go:977-1002 | For a tail without brackets, reviving is being a substring of the placeholder. |
| `Scrub.BracketTailSurvives` | server.go:977-1002 | A name in an external store that ends in an opening bracket is not always scrubbed. |
| `Scrub.IndexedPathClean` | server.go:977-1002 | A path with an index in brackets is scrubbed from every message, unless the index begins as the placeholder does after its bracket. |
| `Scrub.CleanUntouched` | server.go:977-1002 | A message that mentions none of it is not touched. |
| `Scrub.PassRemoves` | server.go:990-1000 | One replace-all pass leaves no occurrence of what it replaced, despite the text it inserts, unless that text revives it. |
| `Scrub.PassKeepsTheRest` | server.go:990-1000 | A pass keeps, in place, all text between the occurrences it replaces, and no occurrence is left in that text. |
| `Scrub.ScrubRef` | server.go:977-1002 | The loop makes the passes for the reference and each colon tail, longest first, stopping at an empty one. |
| `Messages.SplitIsUnique` | internal/msg/msg.go:145-175 | What is handed over is determined by any split of the stream into fitting messages and a rest without one. |
| `Messages.EveryStreamSplits` | internal/msg/msg.go:145-175 | Every stream has such a split: nothing is lost, reordered or invented. |
| `Messages.SendThenServe` | internal/msg/msg.go:101-195 | Messages sent one after another are handed over as that list. |
| `Messages.ServeConn` | internal/msg/msg.go:101-135 | Hands over exactly the stream's messages in order up to the first failure, acknowledges each with its length, stops at the first refused acknowledgement, and never buffers more than the limit. |
| `Messages.ReadMessage` | internal/msg/msg.go:145-175 | One message that ends at the first newline and fits, or the failure the stream deserves: too long once a byte more than fits came without a newline, incomplete, a clean end, or a failed read; with exactly its bytes consumed and never more than the limit buffered. |
| `Messages.ReportsOne` | internal/msg/msg.go:145-175 | Nothing else can be reported of a stream, so these cases exclude one another. |
| `Messages.Send` | internal/msg/msg.go:181-195 | An oversized message writes nothing; otherwise the message and one newline are written, or a prefix of them on a failed write, and the acknowledgement is the next line. |

## Left out

- Bytes are not steps of `ServerProtocol`: data transfer is `EndToEnd`, where closes are failing reads and writes.
- HelloWatchdog.NeverStuck: a blocked read or write is taken to fail by its deadline or by the close; how long that takes is not modelled.
- ServerTheorems.NoHandlerStuck: reads, dials and copies are taken to fail by their deadline, by cancellation or by the close; how long that takes is not modelled.
- The policy store, `setLimits` on survivors and the map swap are three critical sections in the code; the policy store is its own step, the other two are one, because a handler between them sees only a survivor with old or new limits.
- The tunnel, handshakes, netstack, real sockets and DNS: each is an environment step or an argument.
- Endpoint roaming on the device: only the endpoint this code configures is modelled.
- A peer configured with the device's own public key, which the device ignores: not part of the tables.
- File-system events, debouncing and the re-arm timer: any step may follow any other, so a reload may happen at any time.
- Two reload calls overlapping: the watcher's lock makes one attempt a critical section, and only the writers race it.
- YAML decoding, Base64, hexadecimal and address parsing: `Checks` and `KeyCodec` are arbitrary functions.
- A failed initial application of the peer list: the server does not start, so `History` begins after a good one.
- Floating-point rounding of tokens, saturation of durations and wall-clock latency: tokens and clocks are exact reals.
- Replacing an empty reference byte by byte: `Scrub.ReplaceAll` treats each character as one rune, and references are never empty after validation.
- The already-set message class is kept verbatim by the code and by the model; the field name the decoder puts there comes from the program's own tags.
- The error `Dial` returns for each refusing status: a table.
- The text of errors and log lines beyond what is scrubbed or counted, and the acknowledgement's wording.
- Accept loops, listeners, flag parsing, exit codes, key generation, the `cmd` programs, the secret stores and the AWS client: plumbing, or easy members only.
- Dropping a single grant does not close connections of a peer that keeps its key and address, so no theorem says it does.
