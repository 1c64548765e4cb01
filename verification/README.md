# A verified model of rustd-resolved

rustd-resolved is a DNS resolver daemon with a C data path, an NSS client, DNSSEC trust-anchor
maintenance and DNS-SD. This project models the parts of it where the logic is hardest and
proves what they are for, over every input and every interleaving. `dafny verify dfyconfig.toml`
checks the whole project.

## What is modelled

**Names on the wire.** `NameChain` is an independent reading of section 4.1.4 of RFC 1035: the
cells a compressed name visits, the name they spell, and the offset after it. `NameWalk` holds
the two C walkers, loop by loop, proved sound and complete against that reading; `NameText`
holds the encoder and the expanding reader of the NSS client; `StubQuery` builds a query and
checks its answer. The NSS client's answer check compares the expanded name with the caller's
text, so a name given with a final dot is never answered; `EchoAnswersIffNoFinalDot` gives the
exact condition. Letter case never matters: every walker's output is free of upper-case letters,
and the `FoldsCase` lemmas compare messages octet by octet.

**Trust anchors (RFC 5011).** `AnchorIdentity` is the identity of a key, `TrustAnchors` the
manager as a class with its walk over the tracked keys, `TrustRuns` what may happen to a key over
whole runs, `TrustProgress` what does happen to it under given observations,
`TrustOrder` the exact condition under which the hash map's iteration order is immaterial, and
`TrustRuntime` the disk-backed service that reloads, seeds, observes and saves only on change.
Time is not assumed to go forward. The iteration order is a parameter.

**Cache.** `ShardedCache` is the sharded map with lazy eviction, kept equal to one flat table;
`CacheFront` adds the name hash, whole runs, and the resolver-facing front; `Singleflight` is
the fetch-coalescing protocol as a state machine over its critical sections. `len` counts
evicted entries too until the next flush, and `Len` says so. `StoreThenGet` and `InsertThenLookup`
are the round trips over two calls.

**Executor.** `Executor` is the bounded worker pool as a state machine with one step for each
atomic update, lock, `try_send` and `recv`; its queues are first in, first out, and jobs are
handed out in turn.

**DNS-SD registry.** `DnsSdRegistry` is the registry as a class; its invariant says that every
subscriber, applying the updates it has taken and those still queued, knows exactly the
registrations its filter selects. `InstanceRename` is conflict renaming.

**EDNS (RFC 6891).** `NameReading` is the resolver's own name reader, proved against `NameChain`;
`DnsRecords` cuts a message into records and `WireSections` parses all of it, names and record
data included; `OptRecord` is the OPT record and its options, `EdnsScan` the scan, and `Edns` the
rewriting of queries and responses octet by octet. `EdnsNames` says what the rewritten message
means, and `EdnsAccepts` when there is one. Rewriting moves octets and changes the additional
count, and a compressed name may read either: a pointer may lead into the header, and a label it
leads to may run past the end of its record. `Guarded` is the condition on a query, checkable
before the call, under which every question and every name in a record reads as before; then
preparing parses, is idempotent, and is undone by plain UDP. Ordinary queries meet it
(`OrdinaryIsGuarded`), where an OPT record is added it is exact (`AddedSaysIff`), and
`EdnsWitness` has queries that do not meet it: one is not restored (`RestoreFails`), one has its
OPT record last and asks for another name without it (`LastOptMatters`), and in one a record
behind the OPT record changes its owner (`OwnerChanges`).

`FeatureLadder` is the ladder of feature levels. A count of failures survives a lower ceiling set
by the caller, so the three failures that lower the level need not be at one level: `ThreeFailures`
says exactly when they are, and `ThreeAtTwoLevels` is a run in which they are not. A refused
required OPT record pins a server to plain UDP only if no retry was pending (`UdpForGoodIff`).

**Base64.** `Base64` is the encoder and its two independent decoders (section 4 of RFC 4648).

Octets are `0 <= b < 256` integers, or 8-bit vectors where the source works on bits. Clocks,
random identifiers, hash seeds, signature checks and UTF-8 validity are parameters.

## Model

| member | source | states |
|---|---|---|
| Bytes.LowerByteExact | ffi/iouring_dns.c:139-145 | 65..90 become 97..122 and every other octet stays |
| Bytes.LowerFolds | ffi/iouring_dns.c:139-145 | two texts have the same lower-case form if and only if they differ in the case of ASCII letters at most |
| NameChain.NamePathUnique | ffi/iouring_dns.c:82-148 | at most one chain of cells from an offset ends in the root, so the name there is well defined |
| NameChain.NamePathDistinct | ffi/iouring_dns.c:82-148 | the chain of a name visits no offset twice and stays inside the message, which is what the walker's visited bitmap is for |
| NameChain.ResumeInRange | ffi/iouring_dns.c:82-148 | the offset after a name, behind its first pointer or its root, lies inside the message |
| NameWalk.EvidenceDecides | ffi/iouring_dns.c:55-152 | whatever a walker reports, its evidence decides whether a name of allowed length and hops exists there |
| NameWalk.SrNameWalk | ffi/iouring_dns.c:55-152 | succeeds exactly when the message has at most 65535 octets and the chain spells a name within 128 hops, 255 octets and the buffer; then the buffer holds its wire form, without an octet in 65..90, and the offset is the one after the first pointer or the root; on failure the offset stays and no length is given |
| NameWalk.BwNameWalk | ffi/beast_wire.c:139-188 | succeeds exactly when the chain spells a name of at most 255 octets within its own hop limit, and returns that name, without an octet in 65..90, its label count and the next offset; each failure code has its cause |
| NameWalk.WalkersAgree | ffi/beast_wire.c:139-188 | whenever the first walker accepts, the second returns the same octets and the same next offset |
| NameChain.SpellHasNoUpper | ffi/iouring_dns.c:139-145 | what a chain spells has no octet in 65..90 |
| NameChain.NameFoldsCase | ffi/beast_wire.c:139-188 | messages that differ only in the case of ASCII letters, 65..90 and 97..122, in the labels of a name hold the same name, which ends at the same offset |
| NameChain.PathWithOtherCase | ffi/iouring_dns.c:139-145 | any letter of a message may change its case without changing a name, unless it belongs to one of the name's pointers |
| NameWalk.HeaderPrecheck | ffi/iouring_dns.c:353-401 | passes exactly the packets whose header has the expected direction and whose question is a decodable name followed by type and class; any other gets the error of its first fault |
| NameWalk.ExtractQuestionOwner | ffi/iouring_dns.c:403-427 | after a passed precheck a 255-octet buffer always suffices; success returns the question's spelt name, without an octet in 65..90, its type and class |
| NameText.SrEncodeName | nss/nss_resolve_shm.c:131-171 | accepts exactly the names whose labels have 1 to 63 octets and whose wire form fits the buffer and 255 octets, and writes the wire form, without an octet in 65..90 |
| NameText.EncodingFoldsCase | nss/nss_resolve_shm.c:131-171 | names that differ only in the case of letters are encoded to the same octets, or both refused |
| NameText.ExpansionIsLower | nss/nss_dns_stub.c:295-364 | an encoded name expands to text without an upper-case letter that differs from the name given only in case and a final dot |
| NameText.TextFoldsCase | nss/nss_dns_stub.c:295-364 | messages that differ only in the case of letters in the labels of a name expand to texts that differ only in that, by the same jumps |
| NameText.TwoOctetsPerLabel | nss/nss_resolve_shm.c:131-171 | every label of an accepted name takes at least two octets, hence at most 127 labels |
| NameText.EncodedNameWalksBack | ffi/iouring_dns.c:89-151 | an encoded name, anywhere in a message, walks back to identical octets without a pointer and within 128 hops |
| NameText.HopLimitIsTight | ffi/iouring_dns.c:89-151 | some accepted name needs all 128 hops |
| NameText.ExpandName | nss/nss_dns_stub.c:295-364 | terminates on every packet; succeeds exactly when the chain has only backward pointers, at most 128 of them, and text of at most 255 octets that fits; returns the dotted text, its terminator and the offset after the name |
| NameText.NoExpansion | nss/nss_dns_stub.c:295-364 | a chain that is cut off, reserved, too long or jumps too much rules out every expansion from its start |
| NameText.EncodedNameExpands | nss/nss_dns_stub.c:295-364 | expanding an encoded name gives its own lower-case text without a final dot |
| StubQuery.BuildQuery | nss/nss_dns_stub.c:213-244 | succeeds exactly when the name encodes and the packet has room, and writes header, name, type and class |
| StubQuery.QueryReadsBack | nss/nss_dns_stub.c:213-244 | the query built for an encodable name has one question, recursion desired and no other bit or count set, passes the resolver's precheck for queries, and its question reads back as the name's wire form, the type and class IN, with nothing behind it |
| StubQuery.ValidateResponse | nss/nss_dns_stub.c:366-385 | accepts exactly the responses with the identifier, the QR bit, one question, and a question that expands to the asked name and type |
| StubQuery.AnswersFoldsCase | nss/nss_dns_stub.c:366-385 | a response is accepted if and only if any response that differs from it only in the case of letters in its question name is |
| StubQuery.AnswersWithOtherCase | nss/nss_dns_stub.c:366-385 | changing the case of one letter behind the header leaves the verdict as it is, unless the octet belongs to a pointer of the question name or to the type and class |
| StubQuery.AskedInAnyCase | nss/nss_dns_stub.c:366-385 | the verdict does not depend on the case in which the name asked for was given |
| StubQuery.EchoAnswersIffNoFinalDot | nss/nss_dns_stub.c:366-385 | an echoed query with its QR bit set is accepted if and only if the name was given without a final dot or is the root |
| Base64.EncodeBase64 | src/dnssec_rfc5011_runtime.rs:380-402 | the loop computes the chunk-wise encoding, padding included |
| Base64.WholeAlphabet | src/dnssec_rfc5011_runtime.rs:380-402 | octets that count through all 64 sextets encode to the alphabet of table 1 of RFC 4648, in order |
| Base64.PublishedVectors | src/dnssec_rfc5011_runtime.rs:380-402 | the test vectors of section 10 of RFC 4648 for one to four octets |
| Base64.DecodeStrict | src/hook.rs:437-474 | the loop computes the strict decoding, or rejects |
| Base64.DecodeLenient | src/dnssd_config.rs:648-682 | the loop computes the lenient decoding, skipping blanks, or rejects |
| Base64.DecodeOfEncode | src/hook.rs:437-474 | strict decoding inverts encoding on all octets |
| Base64.EncodeOfDecode | src/hook.rs:437-474 | encoding inverts strict decoding on every accepted text |
| Base64.DecodeInjective | src/hook.rs:437-474 | two texts with the same strict decoding are the same text |
| Base64.LenientExtendsStrict | src/dnssd_config.rs:648-682 | wherever the strict decoder accepts, the lenient one returns the same octets |
| Base64.BlanksAreSkipped | src/dnssd_config.rs:648-682 | a space, tab, line feed, form feed or carriage return anywhere in a text makes no difference to the lenient decoder |
| Base64.OtherOctetsAreRejected | src/dnssd_config.rs:648-682 | a text with an octet that is neither blank, nor padding, nor in the alphabet is rejected by it |
| AnchorIdentity.RevokeBit | src/dnssec_rfc5011.rs:431-441 | clearing forgets whether REVOKE was set, and setting sets it |
| AnchorIdentity.CanonicalOwnerIdempotent | src/dnssec_rfc5011.rs:443-450 | canonicalising an owner twice is canonicalising it once |
| AnchorIdentity.LowerOctetExact | src/dnssec_rfc5011.rs:443-450 | 65..90 become 97..122 and every other octet stays |
| AnchorIdentity.CanonicalOwnerOf | src/dnssec_rfc5011.rs:443-450 | an owner between blanks, with any number of final dots, becomes its lower-case name with one final dot |
| AnchorIdentity.OwnersFold | src/dnssec_rfc5011.rs:443-450 | owners that differ only in letter case, blanks around them and final dots are one owner |
| AnchorIdentity.NulOwnersCollide | src/dnssec_rfc5011.rs:431-450 | an owner with a NUL octet shares identities with root keys, so exactness needs owners without one |
| AnchorIdentity.IdentityIsExact | src/dnssec_rfc5011.rs:431-450 | two keys have the same identity if and only if they agree in canonical owner, algorithm, key and flags but for REVOKE |
| TrustAnchors.RecordsAreIdentified | src/dnssec_rfc5011.rs:49-51 | a key taken from a record carries the identity of its own fields |
| TrustAnchors.TrustAnchorManager.SeedValidAnchor | src/dnssec_rfc5011.rs:198-224 | stores a Valid entry under the key's identity and changes nothing else |
| TrustAnchors.TrustAnchorManager.ProcessTracked | src/dnssec_rfc5011.rs:239-346 | one turn of the walk applies the RFC 5011 fate of one entry, reading the other entries as they are at that moment, and tells whether the entry moved or is to be dropped |
| TrustAnchors.TrustAnchorManager.WalkTracked | src/dnssec_rfc5011.rs:239-352 | the walk leaves exactly the entries that survive their turns and reports a change exactly when some entry moved |
| TrustAnchors.TrustAnchorManager.AddCandidates | src/dnssec_rfc5011.rs:354-377 | untracked, unrevoked secure entry points become candidates, and the result says whether any did |
| TrustAnchors.TrustAnchorManager.ObserveValidatedRrset | src/dnssec_rfc5011.rs:226-378 | the in-place walk, drop and add loops compute the per-key description of an observation, and report a change exactly when an entry moved, went or came |
| TrustAnchors.TrustAnchorManager.ProcessTimers | src/dnssec_rfc5011.rs:381-392 | purges exactly the entries whose removal hold-down has passed and reports whether there were any |
| TrustAnchors.WalkAt | src/dnssec_rfc5011.rs:239-346 | what the walk leaves at one key depends on the other keys only through which revocations came earlier in the order |
| TrustRuns.ObserveAt | src/dnssec_rfc5011.rs:226-378 | the entry of one key after an observation, as a function of its entry before, what was seen of it, and whether its validators were already revoked |
| TrustRuns.RunIsJustified | src/dnssec_rfc5011.rs:226-390 | in every run from an empty manager each state of a never-seeded key is backed by the observations that led to it |
| TrustRuns.TrustNeedsHoldDown | src/dnssec_rfc5011.rs:226-390 | a never-seeded key is trusted only if some observation introduced it unrevoked with SEP and validators, every observation from then to a later one showed it unrevoked, and the two are apart by the larger of the minimum hold-down and the TTL; timers alone never promote |
| TrustRuns.TrustEndsOnlyInRevocation | src/dnssec_rfc5011.rs:278-346 | a trusted anchor stays trusted at every event that does not authenticate its self-revocation, and is revoked at every observation that does |
| TrustRuns.RevokedStaysUntilPurged | src/dnssec_rfc5011.rs:296-346 | a revoked key stays revoked at every event unless it is purged, and the purging events are described exactly |
| TrustRuns.RevokedUntilPurgedInRun | src/dnssec_rfc5011.rs:296-390 | between a revoked state and a later one that is not, the key was purged |
| TrustRuns.PurgeNeedsAbsence | src/dnssec_rfc5011.rs:296-390 | a purge has an earlier observation without the key, none with it since, and the removal hold-down in between |
| TrustRuns.RunIsWellKept | src/dnssec_rfc5011.rs:85-91 | in every run each table key is the identity of its entry, and REVOKE is set exactly on revoked entries |
| TrustProgress.TrustedFollowsSight | src/dnssec_rfc5011.rs:278-346 | in every run a valid or missing key is valid after an observation that shows it unrevoked, missing after one without it, revoked after one with its authenticated self-revocation, and else as it was |
| TrustProgress.SeededIsValid | src/dnssec_rfc5011.rs:198-224 | in every run a seeded key is valid afterwards, its entry is that of the key without REVOKE, and every other key is untouched |
| TrustProgress.ClockStarts | src/dnssec_rfc5011.rs:314-324 | the first observation without a revoked key starts its removal hold-down at that instant, and reports a change |
| TrustProgress.ClockStopsWhenSeen | src/dnssec_rfc5011.rs:325-333 | in every run a key in removal hold-down that is seen again is revoked as before, with no clock running |
| TrustProgress.RevokedIsPurged | src/dnssec_rfc5011.rs:296-390 | in every run a revoked key that an observation and all later ones lack, and that is not seeded, is gone after every observation or timer by which the removal hold-down has passed |
| TrustProgress.Introduced | src/dnssec_rfc5011.rs:354-377 | an authenticated observation makes every untracked, unrevoked secure entry point it shows a candidate, waiting from that instant for the larger of the minimum and its TTL |
| TrustProgress.CandidateIsTrusted | src/dnssec_rfc5011.rs:239-276 | in every run a candidate that each later observation shows unrevoked, one of whose validators is not revoked meanwhile, is valid after the observation at which its hold-down has passed |
| TrustProgress.NewcomersAreEntryPoints | src/dnssec_rfc5011.rs:354-377 | whatever an observation begins to track is a zone key and secure entry point it shows without REVOKE and authenticates, by the bits of its flags, and the entry is that key's |
| TrustProgress.RecordFollowsSight | src/dnssec_rfc5011.rs:278-346 | in every run the entry of a key past its hold-down records the last observation that counts as a sighting and the last change of state; only revocation changes its flags and tag, and nothing else of it changes |
| TrustProgress.CandidateRecord | src/dnssec_rfc5011.rs:246-276 | in every run a candidate seen unrevoked, with a validator that is not revoked, is promoted if it is due and else waits on, and nothing else of its entry changes |
| TrustProgress.ChangeIsReported | src/dnssec_rfc5011.rs:226-378 | an observation that makes a key tracked or untracked, or moves it to another state, reports a change |
| TrustOrder.OrderFreeIff | src/dnssec_rfc5011.rs:235-352 | the final table is the same for every iteration order if and only if every candidate all of whose validators are revoked or revoke themselves now, some only now, loses nothing by it |
| TrustOrder.OrderFreeWithoutRevocation | src/dnssec_rfc5011.rs:235-352 | an observation without an authenticated self-revocation of a trusted anchor gives the same table for every order |
| TrustOrder.UnharmedIff | src/dnssec_rfc5011.rs:246-262 | losing its place makes no difference to a candidate if and only if its key is absent or revoked, or it is not due and is introduced again as the same entry |
| TrustOrder.OrderCanMatter | src/dnssec_rfc5011.rs:246-252 | a run of events from the empty table, with keys under their own identities, after which two orders of walking the table give different results |
| TrustRuntime.SeedValidators | src/dnssec_rfc5011_runtime.rs:266-281 | seeds exactly the validating keys that are not tracked and collects the validators' identities |
| TrustRuntime.ValidatorIdsExact | src/dnssec_rfc5011_runtime.rs:270-281 | the validators' identities are exactly those of the validating keys, in strictly ascending order |
| TrustRuntime.ValidatorIsTracked | src/dnssec_rfc5011_runtime.rs:266-293 | after an accepted request every validating key that was not tracked is trusted, or revoked if it revokes itself in the same request |
| TrustRuntime.ForeignIsRejected | src/dnssec_rfc5011_runtime.rs:229-257 | a request without records, without validating keys, or with a record of another type, class or owner than its first changes nothing in memory or on disk |
| TrustRuntime.OnlyOwnKeysEnter | src/dnssec_rfc5011_runtime.rs:266-293 | whatever a request adds to the table is a key it observed or was validated by |
| TrustRuntime.AnchorRuntime.ObserveAuthenticated | src/dnssec_rfc5011_runtime.rs:229-293 | rejects mixed owners and foreign validators without touching the disk; otherwise saves exactly when something was seeded or changed |
| TrustRuntime.DiskFollowsMemory | src/dnssec_rfc5011_runtime.rs:282-292 | skipping the save of a clean observation loses nothing but last sightings |
| TrustRuntime.DiskSimulatesMemory | src/dnssec_rfc5011_runtime.rs:266-292 | in every run, reloading at each observation and saving only on change agrees at every step with a run that never leaves memory, but for last sightings |
| TrustRuntime.DiskTrustNeedsHoldDown | src/dnssec_rfc5011_runtime.rs:229-293 | in every run of the service a key that validated no accepted request is trusted on disk only after an uninterrupted hold-down, as in `TrustNeedsHoldDown` |
| TrustRuntime.RequestRespectsTracked | src/dnssec_rfc5011_runtime.rs:266-281 | a request never ends trust except by self-revocation, and never undoes a revocation, whoever validates it |
| ShardedCache.ClampTtl | src/cache_x.rs:423-432 | a lifetime of zero becomes a second; any other is kept up to 1800 seconds for NXDOMAIN, 3600 for NOERROR and a day otherwise, and cut there |
| ShardedCache.DropUnservable | src/cache_x.rs:434-446 | the first pass drops only unservable entries, up to the budget, and all of them if the budget allows |
| ShardedCache.Oldest | src/cache_x.rs:447-456 | the entry found has the least insertion generation |
| ShardedCache.Evict | src/cache_x.rs:434-457 | for every iteration order exactly min(budget, size) entries go, no servable one while an unservable one stays, and every evicted servable entry is older than every survivor |
| ShardedCache.MakeRoom | src/cache_x.rs:239-245 | evicts the excess of a full shard before an insertion and tells whether the key is new |
| ShardedCache.GlobalCache.constructor | src/cache_x.rs:147-166 | an empty cache that satisfies the invariant |
| ShardedCache.GlobalCache.Lookup | src/cache_x.rs:174-191 | answers fresh, stale or miss as the flat table does, and counts the answer |
| ShardedCache.GlobalCache.InsertWithScope | src/cache_x.rs:215-250 | inserts into the key's own shard; of the entries with the same home exactly the excess goes, unservable ones first and then the oldest |
| ShardedCache.RoomyLosesNothing | src/cache_x.rs:239-245 | an insertion into a shard that is not full evicts nothing |
| ShardedCache.RestaleShards | src/cache_x.rs:252-259 | shard by shard, every entry gets its new limit and stays where it is |
| ShardedCache.GlobalCache.SetStaleWindow | src/cache_x.rs:252-259 | every stored entry's stale limit becomes its expiry plus the new window |
| ShardedCache.GlobalCache.Flush | src/cache_x.rs:358-364 | empties every shard and its counter |
| ShardedCache.GlobalCache.Len | src/cache_x.rs:366-371 | the stored entries plus the evictions since the last flush |
| ShardedCache.CacheSizeBound | src/cache_x.rs:239-250 | a cache never holds more than its shards' limits together |
| CacheFront.HashIsCaseInsensitive | src/cache_x.rs:41-75 | names that differ only in ASCII case hash alike, well formed or not |
| CacheFront.ShardIndex | src/cache_x.rs:168-172 | the shard index is in range for every key |
| CacheFront.Perform | src/cache_x.rs:174-259 | one operation acts on the sharded cache as on the flat table, and only an insertion evicts, by the eviction rule |
| CacheFront.Replay | src/cache_x.rs:174-259 | every run of insertions, window changes, flushes and lookups gives the answers of one flat map; each insertion evicts, of the entries with the inserted key's home, exactly the excess, unservable ones first and then the oldest |
| CacheFront.InsertThenLookup | src/cache_x.rs:174-250 | what one call inserts the next finds with its code, answer, secure bit, interface and scope: fresh for exactly the clamped lifetime, stale for exactly the window after it, and not afterwards |
| CacheFront.Cache.constructor | src/cache.rs:95-108 | sixteen shards with a sixteenth of the capacity each, at least one entry |
| CacheFront.Cache.InsertScoped | src/cache.rs:155-204 | stores exactly the admitted responses, with the identifier zeroed and the lifetime capped, evicts by the rule, and never holds more than 16 times max(1, capacity/16) entries |
| CacheFront.Cache.GetScoped | src/cache.rs:125-149 | returns exactly fresh entries, and stale ones when allowed, with the asker's identifier and the stored interface |
| CacheFront.StoreThenGet | src/cache.rs:125-204 | an admitted response comes back octet for octet, with its age and interface, to whoever asks with its own identifier: fresh for the lifetime capped by the configured maximum and 1800 or 3600 seconds, stale for the window if that is allowed, and not afterwards |
| CacheFront.AdmittedOctets | src/cache.rs:155-204 | which responses are admitted, by the octets of the header: a complete response with code 0 or 3 and a positive lifetime, and one with code 3 or without answers only if negative answers are kept |
| CacheFront.IdRoundTrip | src/cache.rs:187-190 | zeroing the identifier on storage and restoring it loses nothing |
| CacheFront.ScopeRoundTripIff | src/cache.rs:15-43 | a scope survives its encoding if and only if its interface index is not negative and its delegate index has 62 bits |
| Singleflight.StepOk | src/cache_x.rs:262-347 | every step of every task keeps the protocol invariant |
| Singleflight.RunOk | src/cache_x.rs:262-347 | the invariant holds at every state of every interleaving |
| Singleflight.OneFetchPerKey | src/cache_x.rs:286-297 | at every reachable state a key has at most one leader |
| Singleflight.LeaderTakesOwnFlight | src/cache_x.rs:307-311 | the flight a leader removes from the table when its fetch ends is its own |
| Singleflight.SecondFetchBeforeStore | src/cache_x.rs:307-323 | a concrete interleaving in which a second leader for the key starts between the removal and the cache insertion |
| Singleflight.FetchesOnce | src/cache_x.rs:308-312 | a flight's fetch ends once, however many tasks joined it |
| Singleflight.FlightAgrees | src/cache_x.rs:299-346 | all tasks of a flight end with the leader's rcode, answer and secure bit, or all fail |
| Singleflight.NobodyIsDropped | src/cache_x.rs:299-306 | no follower ever finds its channel closed without a message |
| Singleflight.HeardAfterStored | src/cache_x.rs:314-338 | any answer a task of a flight returns was put into the cache before: right after that step the table holds, under the key the task asked for, an entry with the same rcode, answer and secure bit and the clamped lifetime from that instant |
| Singleflight.StoredForAsked | src/cache_x.rs:286-323 | the key under which a leader stores is the key every task of its flight asked for |
| Singleflight.StoredIsFound | src/cache_x.rs:272-323 | a task that asks for the key right after the answer is stored and before it expires ends at once with an entry that holds the answer, without a fetch |
| Singleflight.CachedIsServable | src/cache_x.rs:272-283 | a task is answered from the cache exactly when the table holds an entry for its key that is fresh or within its stale window, and then with that entry |
| Singleflight.NoLostWakeup | src/cache_x.rs:299-346 | every unfinished task can take a step or waits for a leader that can |
| Singleflight.StepAdvances | src/cache_x.rs:262-347 | every step brings its task closer to its end |
| Executor.PeerTable.constructor | src/bounded_executor.rs:57-64 | an empty table with the given limit |
| Executor.PeerTable.ReservePeer | src/bounded_executor.rs:106-117 | takes a slot exactly below the limit |
| Executor.PeerTable.ReleasePeer | src/bounded_executor.rs:119-130 | gives a slot back and drops the entry at zero |
| Executor.StepOk | src/bounded_executor.rs:73-165 | every step of every submitter and worker keeps the invariant |
| Executor.RunOk | src/bounded_executor.rs:73-177 | the invariant holds at every state of every interleaving; no queue exceeds its depth, no job stands twice in a queue, and a worker holds one job |
| Executor.PeerQuota | src/bounded_executor.rs:106-130 | a peer's count is the number of its jobs between reservation and release, never above the limit, and so are its running jobs |
| Executor.RefusedIffAtLimit | src/bounded_executor.rs:77-82 | a submission is refused for quota if and only if its peer holds exactly the limit at that moment |
| Executor.ReleaseFindsCount | src/bounded_executor.rs:167-177 | a release always finds a positive count, so it never saturates |
| Executor.GaugeNeverUnderflows | src/bounded_executor.rs:89-103 | the active gauge is at least one before every decrement |
| Executor.Conservation | src/bounded_executor.rs:93-104 | admitted jobs plus those dispatched but not yet counted equal queued, in work and completed ones |
| Executor.Quiescence | src/bounded_executor.rs:73-177 | when every submission is settled nothing is active, queued or reserved, admitted equals completed, and every submission was counted once |
| Executor.RunsOnce | src/bounded_executor.rs:149-165 | no job is taken from a queue twice |
| Executor.RejectedNeverRuns | src/bounded_executor.rs:97-103 | a submission that returned false never runs, before or after |
| Executor.EveryQueueWasFull | src/bounded_executor.rs:132-146 | a job is turned away for lack of room only after it found each queue full |
| Executor.QueuesAreFifo | src/bounded_executor.rs:132-165 | in every run the jobs sent to a queue are those its worker has taken, in order, followed by those that wait in it |
| Executor.DispatchIsRoundRobin | src/bounded_executor.rs:132-146 | in every run the n-th job to be dispatched tries first the queue n modulo 2^64 and then modulo the workers |
| Executor.ReleasedAfterRunning | src/bounded_executor.rs:149-165 | in every run a worker gives back a job's slot only after the job was sent to its queue, taken by it and done by it, in this order |
| Executor.CompletedAfterRelease | src/bounded_executor.rs:149-165 | in every run a job is counted as completed only after the same worker gave back its slot and then lowered the gauge |
| Executor.SomebodyCanMove | src/bounded_executor.rs:73-165 | in every reachable state with a submission that is not settled some submitter or worker can take a step |
| Executor.FewStepsPerJob | src/bounded_executor.rs:73-165 | in every run at most as many steps as there are workers and nine more belong to one submission; with `SomebodyCanMove`, a run without new submissions that goes on as long as it can settles all of them |
| InstanceRename.RenamedInstance | src/dnssd_full.rs:649-665 | the loop shortens the base to the longest acceptable prefix that leaves room for the suffix |
| InstanceRename.Candidate | src/dnssd_full.rs:649-665 | every candidate is a legal instance of at most 63 octets |
| InstanceRename.CandidateShape | src/dnssd_full.rs:649-665 | a numbered candidate is the base, or its longest valid prefix that fits in 63 octets, followed by a space and the ordinal in decimal between parentheses, without leading zeros |
| InstanceRename.CandidatesDiffer | src/dnssd_full.rs:649-665 | numbered candidates for distinct ordinals differ, however the base was shortened |
| DnsSdRegistry.SelectedExactly | src/dnssd_full.rs:481-487 | a filter selects exactly the registrations of its service type and domain, on its interface if it names one |
| DnsSdRegistry.ToldAdded | src/dnssd_full.rs:624-646 | an addition told to a matching subscriber keeps its view exact |
| DnsSdRegistry.ToldRemoved | src/dnssd_full.rs:624-646 | a removal told to a matching subscriber keeps its view exact |
| DnsSdRegistry.NotifiedAt | src/dnssd_full.rs:624-646 | a notification is appended once to each matching queue and to no other |
| DnsSdRegistry.OpeningIsFaithful | src/dnssd_full.rs:575-587 | the first batch of a subscription replays to exactly the selected registrations |
| DnsSdRegistry.SomeOrdinalIsFree | src/dnssd_full.rs:515-535 | with fewer than 9998 keys some candidate name is free |
| DnsSdRegistry.Registry.constructor | src/dnssd_full.rs:490-498 | an empty registry that satisfies the invariant |
| DnsSdRegistry.Registry.Notify | src/dnssd_full.rs:624-646 | visits the subscriptions in ascending order and tells the matching ones |
| DnsSdRegistry.Registry.Register | src/dnssd_full.rs:501-513 | succeeds exactly for valid registrations under a free key, with an unused identifier; the maps stay mutually inverse and every subscriber's view exact |
| DnsSdRegistry.Registry.RegisterWithAutomaticRename | src/dnssd_full.rs:515-535 | takes the least free ordinal; fails only when all 9999 names are taken or the registration is invalid, so never with fewer than 9998 keys |
| DnsSdRegistry.Registry.Enter | src/dnssd_full.rs:501-513 | enters a registration under the next identifier, which is unused, and tells the subscribers |
| DnsSdRegistry.Registry.Exchange | src/dnssd_full.rs:537-555 | puts a registration in the place of another and tells the subscribers of a removal and an addition |
| DnsSdRegistry.Registry.Amend | src/dnssd_full.rs:537-555 | changes the registration unless it is invalid, unknown or its new key belongs to another; subscribers see a removal and an addition |
| DnsSdRegistry.Registry.Unregister | src/dnssd_full.rs:557-566 | removes the registration and its key, or reports it unknown and changes nothing |
| DnsSdRegistry.Registry.Subscribe | src/dnssd_full.rs:572-591 | a new identifier whose queue starts with the selected registrations in ascending order |
| DnsSdRegistry.Registry.Unsubscribe | src/dnssd_full.rs:593-596 | forgets the subscription and its queue |
| DnsSdRegistry.Registry.TakeUpdates | src/dnssd_full.rs:598-603 | hands out the queue, whose replay brings the subscriber's view exactly to the present registrations its filter selects |
| DnsSdRegistry.Registry.RemoveInterface | src/dnssd_full.rs:612-622 | removes exactly the interface's registrations and returns them in ascending order |
| OptRecord.ParseOptions | src/edns.rs:498-522 | the loop computes the options, or rejects a length that overruns |
| OptRecord.EncodeOpt | src/edns.rs:524-556 | writes the record, or fails when an option or all of them do not fit their length fields |
| OptRecord.EncodableIff | src/edns.rs:524-556 | a record can be written if and only if its options, four octets and the data of each, take at most 65535 octets together |
| OptRecord.ParseOfEncode | src/edns.rs:498-537 | parsing inverts the option encoding |
| OptRecord.EncodeOfParse | src/edns.rs:498-537 | the parser accepts only encodings, and encoding inverts it |
| DnsRecords.NameIsLocal | src/wire/codec.rs:130-207 | where a name ends depends on its own octets only, wherever it stands |
| DnsRecords.RecordIsLocal | src/wire/codec.rs:250-281 | where a record ends depends on its own octets only, wherever it stands |
| DnsRecords.ReadingIsUnique | src/wire/codec.rs:250-281 | two readings of the same octets as records agree |
| NameReading.ReadName | src/wire/codec.rs:130-207 | succeeds exactly where strictly backward pointers, at most 128, lead to a root within 255 octets; returns the name, without an octet in 65..90, and the offset after it |
| NameReading.ReadsExactly | src/wire/codec.rs:130-207 | a name of RFC 1035 is read if and only if its pointers go backward, are at most 128, and it spells at most 255 octets; and it is read as it spells |
| NameReading.ReadFoldsCase | src/wire/codec.rs:130-207 | messages that differ only in the case of letters in the labels of a name are read alike there |
| NameReading.NameHasPath | src/wire/codec.rs:130-207 | whatever is read is the spelling of such a name |
| NameReading.NameKept | src/wire/codec.rs:130-207 | a name that reads, behind its first pointer, only octets that stay in place reads the same wherever its own octets have gone |
| NameReading.CountedNameIff | src/wire/codec.rs:130-207 | when the low octet of the additional count goes up by one, a name reads the same if and only if it does not read that octet |
| NameReading.RootReads | src/edns.rs:470-482 | a readable name is the root if and only if it is a root octet or leads to one by pointers |
| WireSections.ParseQuestion | src/wire/codec.rs:231-244 | accepts exactly a readable name followed by a type that may be asked for and a class |
| WireSections.ParseRecord | src/wire/codec.rs:250-281 | accepts exactly the records whose octets are complete, whose type and class may be stored, whose data has the shape of its type, and whose names can be read |
| WireSections.ParseSections | src/wire/codec.rs:641-662 | succeeds exactly when all questions and records parse and end with the message, and returns the records with their offsets |
| EdnsScan.ScanPacket | src/edns.rs:458-496 | parses and scans in one pass: the scan of a message that parses, and nothing else |
| EdnsScan.ParseAndScan | src/edns.rs:467-490 | one turn of the loop: the next record is accepted exactly when it parses and the scan passes it |
| EdnsScan.ScanRecord | src/edns.rs:470-490 | an OPT record must be the first, in the additional section, of root name and with options that parse |
| EdnsScan.ScanKnows | src/edns.rs:458-496 | an accepted scan knows the place of the only OPT record and whether a TSIG record is there |
| EdnsScan.ScanAccepts | src/edns.rs:458-496 | records that are legal, with at most one OPT record in the additional section, are accepted |
| EdnsScan.ScannedReads | src/edns.rs:458-496 | an accepted message is a header, its questions, and as many records as it counts |
| Edns.QueryOpt | src/edns.rs:358-363 | the record of a query is encodable for every level and size |
| Edns.OurOpt | src/edns.rs:441-456 | our record is one legal OPT record that the scan accepts |
| Edns.ExciseReplaces | src/edns.rs:604-613 | removal is replacement by nothing |
| Edns.ReplaceKeeps | src/edns.rs:558-581 | replacing the OPT record's octets gives an accepted message with the octets of the other records unchanged |
| Edns.RemoveKeeps | src/edns.rs:604-613 | removing the OPT record gives an accepted message without one, the count lowered and the octets of the other records unchanged |
| Edns.AppendKeeps | src/edns.rs:583-602 | appending gives an accepted message with our OPT record last, the count raised and the octets of the other records unchanged |
| Edns.PrepareQuery | src/edns.rs:330-377 | computes the prepared query by parsing, scanning, encoding and splicing, or rejects |
| Edns.PreparedOctets | src/edns.rs:330-377 | the OPT record of a prepared query, octet by octet: root name, type 41, the size but at least 512, the DO bit at the two DNSSEC levels and no other flag, and options 5, 6 and 7 of RFC 6975 exactly with it |
| Edns.PreparedReports | src/edns.rs:330-377 | the result says truly whether the prepared query carries an OPT record, and that signed queries come out unchanged |
| EdnsAccepts.PreparesIff | src/edns.rs:330-377 | a query is prepared if and only if its header has QR, opcode and TC zero, one question and no answers, it parses and passes the scan, and, unless it is signed, the result has at most 65535 octets and a count that does not overflow |
| Edns.PrepareKeeps | src/edns.rs:330-377 | an unsigned query comes out with exactly our OPT record, or none at plain UDP, a correct count, and the octets of its questions and other records in the same order |
| Edns.OptReadsBack | src/edns.rs:379-394 | reading an encoded OPT record gives back its size, code, version, flags and options |
| Edns.PreparedSaysOpt | src/edns.rs:379-394 | reading the OPT record of a prepared query back gives version 0, code 0, the size but at least 512, flags 0x8000 exactly at the two DNSSEC levels and 0 otherwise, and options 5, 6 and 7 with their algorithm lists exactly there |
| Edns.LastLevelIff | src/edns.rs:330-377 | preparing for an EDNS level and then for another equals preparing for the last one if and only if the first result parses or the last level cannot be prepared for |
| Edns.ResponseForClient | src/edns.rs:419-439 | computes the client's response by parsing both messages, scanning and splicing, or rejects |
| Edns.ClientSeesNoOpt | src/edns.rs:419-439 | a client that sent no OPT record gets the response without it, the octets of the other records unchanged, and an extended code shown as a server failure |
| Edns.ClientCode | src/edns.rs:419-439 | the code a client without EDNS sees is 2 if the OPT record taken out carried upper bits of the code, and else the response's own; no other header bit of the code's octet changes |
| Edns.ServfailCode | src/edns.rs:419-439 | the code becomes 2 and no other bit of the message changes |
| EdnsAccepts.RespondsIff | src/edns.rs:419-439 | a client gets a response if and only if both headers are those of a plain query and response, both messages parse, the query passes the scan, and, where the OPT record is to be taken out, the response passes it too and is not too long without it |
| EdnsNames.RecordTells | src/wire/codec.rs:250-281 | a record whose names are settled has the same names, and parses, wherever its octets have gone |
| EdnsNames.ListsKept | src/edns.rs:558-613 | putting in, replacing or removing an OPT record keeps the list of the other records, each with its names as read |
| EdnsNames.QuestionsTell | src/edns.rs:558-613 | questions whose names are settled are read and ask the same |
| EdnsNames.ReplacedSays | src/edns.rs:558-581 | replacing the OPT record gives a message that parses and says the same, if no name reads past the record's start through a pointer |
| EdnsNames.RemovedSays | src/edns.rs:604-613 | removing the OPT record gives a message that parses and says the same, if no name reads the count or past the record's start through a pointer |
| EdnsNames.AppendedSays | src/edns.rs:583-602 | adding an OPT record gives a message that parses and says the same, if no name reads the count |
| EdnsNames.PreparedSays | src/edns.rs:330-377 | a guarded query comes out parseable, with the same questions and the same other records, every name in them reading as before |
| EdnsNames.LastLevelWins | src/edns.rs:330-377 | for guarded queries preparing for an EDNS level and then for any level equals preparing for the last one |
| EdnsNames.UdpRestores | src/edns.rs:330-377 | plain UDP after any level restores a guarded query that had no OPT record |
| EdnsNames.PrepareIdempotent | src/edns.rs:330-377 | preparing twice for a level is preparing once, for guarded queries and for all signed ones |
| EdnsNames.ClientResponseSays | src/edns.rs:419-439 | the response for a client without EDNS has no OPT record, parses, and asks and says the same, names included, under the guard of the response |
| EdnsLimits.AddedSaysIff | src/edns.rs:583-602 | a query that had no OPT record parses and says the same with one if and only if none of its names reads the low octet of the count; for counts that do not carry |
| EdnsLimits.OrdinaryIsGuarded | src/edns.rs:330-377 | a query whose question is written out and whose records are OPT records at most is guarded at every level |
| EdnsWitness.RestoreFails | src/edns.rs:583-613 | a query without an OPT record that preparing for DNSSEC makes unreadable, so that plain UDP rejects it |
| EdnsWitness.LastOptMatters | src/edns.rs:604-613 | a query whose OPT record is the last, and whose question asks for another name once it is removed |
| EdnsWitness.OwnerChanges | src/edns.rs:604-613 | a query that parses with and without its OPT record, whose last record keeps its octets and changes its owner from `a.` to the root |
| EdnsWitness.ChanceReadsSame | src/edns.rs:604-613 | a query that is not guarded and still reads the same, because equal octets come to stand where its name reads |
| FeatureLadder.AskedInRange | src/edns.rs:81-119 | the level handed out lies between min(minimum, best) and best, unless EDNS was refused where required |
| FeatureLadder.ServerFeatureState.constructor | src/edns.rs:65-78 | the default state |
| FeatureLadder.ServerFeatureState.PossibleLevel | src/edns.rs:81-119 | bounds the level, climbs back when a retry is due, and doubles the grace period |
| FeatureLadder.ServerFeatureState.RecordSuccess | src/edns.rs:137-145 | raises the verified level and clears the count at the level in use |
| FeatureLadder.LevelsAreOrdered | src/edns.rs:20-27 | plain UDP, EDNS, TLS, DNSSEC, and TLS with DNSSEC, each above the one before |
| FeatureLadder.VerifiedStep | src/edns.rs:137-145 | the verified level rises only by a success, to the level reported and at least to it; whether any was verified is remembered until a reset |
| FeatureLadder.VerifiedFalls | src/edns.rs:187-212 | the verified level falls only with the level in use, by a refused required OPT record or by a reset, and does not exceed a level just lowered |
| FeatureLadder.BadOptRemembers | src/edns.rs:81-217 | in every run the mark of a rejected OPT record is up if and only if one was rejected since the last retry or reset |
| FeatureLadder.LoweredStep | src/edns.rs:203-212 | a report that lowers the level clears the failure count, keeps the grace period and schedules a retry after it, unless that is past the last instant |
| FeatureLadder.RaisedStep | src/edns.rs:81-119 | whenever the level rises no failure is counted and no retry pending; a due retry rises to the best level and forgets a rejected OPT record |
| FeatureLadder.ThirdFailureGivesUpOne | src/edns.rs:147-163 | the third failure gives up DNSSEC if it is in use, else TLS if that is, else EDNS, and only one of them |
| FeatureLadder.TlsFailureKeepsDnssec | src/edns.rs:165-177 | a TLS failure at the level in use gives up TLS, and keeps EDNS and, exactly if it was in use, DNSSEC |
| FeatureLadder.BadOptGivesUpEdns | src/edns.rs:179-185 | a rejected OPT record gives up EDNS at once |
| FeatureLadder.DoOffKeepsTls | src/edns.rs:194-201 | an answer without the DO bit gives up DNSSEC, and keeps EDNS and, exactly if it was in use, TLS |
| FeatureLadder.ServerFeatureState.RecordFailure | src/edns.rs:147-163 | lowers the level exactly on the third counted failure above plain UDP |
| FeatureLadder.ServerFeatureState.RecordTlsFailure | src/edns.rs:165-177 | leaves TLS at once, keeping DNSSEC if it was asked for |
| FeatureLadder.ServerFeatureState.RecordBadOpt | src/edns.rs:179-185 | a rejected OPT record leads to plain UDP |
| FeatureLadder.ServerFeatureState.RecordRequiredBadOpt | src/edns.rs:187-192 | forces plain UDP without touching a pending retry |
| FeatureLadder.ServerFeatureState.RecordDoOff | src/edns.rs:194-201 | leaves the DNSSEC levels, keeping TLS |
| FeatureLadder.ServerFeatureState.Downgrade | src/edns.rs:203-212 | only ever lowers the level, and schedules a retry when it does |
| FeatureLadder.ServerFeatureState.ResetState | src/edns.rs:214-216 | back to the default state |
| FeatureLadder.BackoffFormula | src/edns.rs:112-115 | the backoff is min(5 minutes times 2^n, 6 hours) |
| FeatureLadder.GraceIsBackoff | src/edns.rs:81-217 | in every run the grace period is the backoff of the retries since the last reset |
| FeatureLadder.RetryWaits | src/edns.rs:103-116 | a retry comes at least the backoff after the downgrade that scheduled it |
| FeatureLadder.RiseNeedsCause | src/edns.rs:81-217 | the level rises only by a due retry, a higher minimum or a reset |
| FeatureLadder.RunFewFailures | src/edns.rs:147-163 | in every run the level is plain UDP or fewer than three failures are counted |
| FeatureLadder.ThreeFailures | src/edns.rs:147-163 | in every run a failure that lowers the level is the third counted one, with no success at the level in use in between, and the three were at one level if and only if no event in between carried the count to another |
| FeatureLadder.LevelFalls | src/edns.rs:81-163 | while failures are counted the level never rises, and falls exactly at the events that carry the count |
| FeatureLadder.ThreeAtTwoLevels | src/edns.rs:93-102 | a run in which two failures at one level and one at the next lower the level |
| FeatureLadder.CarriesIff | src/edns.rs:93-102 | the failure count outlives a change of level exactly when a lower ceiling or a refused required OPT record forces the change |
| FeatureLadder.UdpForGoodIff | src/edns.rs:187-192 | after a required OPT record was refused every level until a reset is plain UDP if and only if no retry was pending |

## Left out

- Sockets, netlink, the io_uring ring, TLS, privilege dropping and inotify: kernel and library I/O.
- Cryptography: whether an RRset or a self-revocation is authenticated is an input.
- D-Bus, Polkit, Varlink and command-line surfaces, configuration parsing and hosts lookup: adapters around the modelled parts.
- The shared-memory reader of the NSS client: its writer's generation protocol is not part of this model.
- The encoding of saved state, file discovery and environment variables: saving and loading store and return the table.
- `valid_anchors`, `revoked_anchor_ids` and the published anchor lines: filters over the modelled table.
- Unicode blanks around owner names: only ASCII blanks are trimmed, and owners are octet strings.
- Machine integers of clocks and counters: times are unbounded integers, statistics never wrap; the round-robin counter does wrap at 2^64, and retry times past the clock's last instant are dropped as in the source.
- AnchorIdentity.IdentityIsExact: speaks of owners without a NUL octet, because the identity separates its fields by one; `NulOwnersCollide` shows that others collide.
- TrustRuntime.SeedValidators: keeps the identities sorted while it collects them, where the source sorts and removes duplicates at the end; `ValidatorIdsExact` fixes the result.
- StubQuery.BuildQuery: encodes the name into a buffer of its own and copies it, where the source writes in place.
- ShardedCache.GlobalCache.InsertWithScope: is atomic; a window change between reading the window and locking the shard is not modelled.
- CacheFront.Cache.GetScoped: stops before the TTLs of the packet are aged.
- CacheFront.Cache.InsertScoped: takes the lifetime found in the response as an input.
- Singleflight.RunOk: leaders are not cancelled while they fetch; a broadcast holds one message, so the channel's capacity never matters.
- Executor.RunOk: jobs do not panic, and a queue of depth zero never has room, where the source's zero-capacity channel hands over to a waiting worker.
- Executor.Quiescence: with a limit of zero the peer table keeps entries with count zero, as in the source.
- DnsSdRegistry.Registry.Register: fewer than 2^64 identifiers are issued; the checks of TXT, subtypes and addresses are an input.
- WireSections.ParseSections: the checks of record data without a compressible name (HINFO, TXT, SPF, LOC, NAPTR, RRSIG, NSEC, NSEC3, NSEC3PARAM, SVCB, HTTPS and CAA) are one input, a function of the type and the data octets.
- Edns.PrepareKeeps: speaks of the octets of the other records; what their names say is kept under the guard of `PreparedSays`, and not in general.
- Edns.ClientSeesNoOpt: speaks of the octets of the other records; what their names say is kept under the guard of `ClientResponseSays`, and not in general.
- EdnsNames.PreparedSays: its guard is sufficient; it is shown to be necessary where an OPT record is added without a carry in the count, and elsewhere a name that reads moved octets may by chance read the same, as `ChanceReadsSame` shows.
- TrustRuntime.AnchorRuntime.ObserveAuthenticated: errors of reading and writing the file, and the publication of the anchor list, are not modelled.
- `bad_version_response`, extended errors and their texts: fixed answers and tables, without state or loops.
- Prefetching, snapshots and statistics of the cache: copies and counters of the modelled table.
