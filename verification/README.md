# OmniLink: verified models

OmniLink joins up to nine computers of a local network into one desktop: peers find each other
by datagram, agree on a session through a handshake, open sub-streams over it, and move encoded
frames, clipboard contents and commands. This project models the protocols, the lock-free and
pooled structures and the wire formats of that application in Dafny, and proves what they keep
over all inputs, runs and interleavings. `dafny verify dfyconfig.toml` checks all of it.

Code that changes objects in place is an imperative method here, proved to do what a function on
values says; the protocol theorems are about those functions. Where several threads share an
object there is a machine of single loads and stores beside it, and a lemma that a thread nobody
interrupts does in that machine what the whole call does (`UninterruptedPush`,
`UninterruptedPop`, `UninterruptedEncode`, `UninterruptedCalls`).

| area | files |
|---|---|
| Link handshake, retries, duel | `Link`, `OmniCore`, `LinkProtocol`, `LinkEffects`, `LinkDuel`, `LinkRetries` |
| Sub-streams and features | `SubStreams`, `ActiveInstance`, `SubStreamProtocol`, `SubStreamEffects`, `Features` |
| Lock-free and pooled structures | `BurstQ`, `EncoderRing`, `CachedPool`, `Router` |
| Wire format and commands | `ByteStream`, `Clipboard`, `Packets`, `Commands` |
| Grid slots | `SlotAllocator` |

Where the code is weaker than its documentation, the model follows the code and the exact
condition is proved:

- Line 85 of the repository's README says duplicate or reordered datagrams cannot regress an
  active handshake. They can: `RegressesExactly` gives the two cases (a lost duel, a FAILED
  response), `DuplicateRequestRegresses` a second copy of one request.
- A device can be LINKED without being authenticated, when the LINKED response overtakes the
  handshake data: `LinkedCanBeUnauthenticated` is such a run, `AuthenticatedThroughout` says
  exactly which runs are free of it, and `LateHandshakeDataAuthenticates` that it heals.
- Even stream identifiers reach the invalid 0 after 32767 allocations (`InvalidIdExactly`), and
  the feature flags go wrong exactly when an identifier is 0 or reused (`ConsistentRunsExactly`).
- A slot of the grid cleared because its device vanished is not given to that device again when
  it returns: its address stays in the lookup (`RefreshInstanceList`).
- As constructed, the registry counts the local device's slot C0 as empty: the first automatic
  `AddInstance` overwrites the local device, and the count of empty slots is 9 instead of 8
  (`StartIsStale`). Only a unit test clears the bit. `ScansExactly`, `PopCountExactly` and
  `AddInstance` say that both are right exactly when that bit is not stale.
- A scan that misses a device in the middle of a handshake resets its state but neither its
  session nor its retry entry, so the attempt can begin again (`VanishingRestartsExactly`).
- The action token is asked for by command type, while the queue dispatches on the argument, so a
  command of type 0 or 1 brings any argument along without a token (`ExecutedExactly`,
  `GateLooksAtTheTypeAlone`).
- Registering a null window session over a live one loses count (`ConservedExactly`).
- A string of 2^32 bytes or more is announced with a truncated length and left out of a clipboard
  manifest (`RoundTripExactly`).

## Model

| member | source | states |
|---|---|---|
| LinkProtocol.StepSends | src/app/OmniCore.cpp:82-169 | Against an independent table per handler: which packets every event sends, with which token, and that nothing else is sent |
| LinkProtocol.SendsAreTruthful | src/core/InstanceRegistry.hpp:232-245 | Every response or handshake datum carries the token held when it was sent, handshake data needs a session, and LINKED is announced only while AcceptConnection runs |
| LinkProtocol.SentByAStep | src/core/InstanceRegistry.hpp:217-245 | In any run a packet in the network was put there by one particular earlier step of the sender |
| LinkProtocol.EntersLinked | src/app/OmniCore.cpp:120-122 | The only way into LINKED besides AcceptConnection is a LINKED response with the own token and a session |
| LinkProtocol.AnnouncedMeansAccepted | src/app/OmniCore.cpp:387-391 | A LINKED response in the network proves that its sender ran AcceptConnection at an earlier step of the run while holding that token |
| LinkProtocol.Agreement | src/app/OmniCore.cpp:88-122 | In every run over a dropping, duplicating, reordering network, who becomes LINKED accepts in that step, or holds a session and a token with which its peer ran AcceptConnection earlier |
| LinkProtocol.AutomaticAcceptanceIsInvited | src/app/OmniCore.cpp:331-348 | An acceptance without an Accept command rests on handshake data that the peer sent earlier in the run, with a session and the same token |
| LinkProtocol.TrustedExactly | src/app/OmniCore.cpp:387-401 | After any event a device is trusted permanently if and only if it was before or an Accept command with the trust flag has just run |
| LinkProtocol.AuthenticationKeptExactly | src/app/OmniCore.cpp:387-390 | Any event keeps "LINKED implies authenticated" if and only if it does not link a device whose secret was never derived |
| LinkProtocol.AuthenticatedThroughout | src/qrypt/QryptEngine.hpp:76-121 | "LINKED implies authenticated" holds at every step boundary of a run if and only if no step of the run links without a secret |
| LinkProtocol.LateHandshakeDataAuthenticates | src/app/OmniCore.cpp:315-328 | A LINKED device without authentication gets it from the next handshake data for its token, whatever its flags, and loses its retry entry |
| LinkProtocol.LinkedCanBeUnauthenticated | src/app/OmniCore.cpp:120-122 | A valid run of two fresh peers after which one of them is LINKED and not authenticated |
| LinkProtocol.RegressesExactly | src/core/InstanceRegistry.hpp:247-265 | A received datagram lowers the link state if and only if it is a request that wins the duel after LINKING_WAIT or a FAILED response for the token in use |
| LinkProtocol.DuplicateRequestRegresses | src/app/OmniCore.cpp:50-74 | A second copy of the request being answered takes a device from LINKING_AUTH back to LINKING_WAIT and drops its session |
| LinkProtocol.ResetDeviceIsInert | src/core/InstanceRegistry.hpp:288-296 | From the reset state no sequence of responses, handshake data, timer passes and scans changes link state, session or token |
| LinkEffects.KeysExactly | src/app/OmniCore.cpp:278-290 | For every event, from a table by occasion: when a key pair, a secret and an authenticated session exist afterwards; taking handshake data derives the secret in whatever state, FAILED, reject, forget and time-out clear all three |
| LinkEffects.LinkExactly | src/app/OmniCore.cpp:35-414 | For every event, from tables by occasion: link state, token, session and address afterwards |
| LinkEffects.RetryExactly | src/app/OmniCore.cpp:625-683 | For every event the retry entry afterwards, with the numbers 5, 1 and 0 and every erasure |
| LinkEffects.StrangersLink | src/app/OmniCore.cpp:196-401 | Two strangers with any addresses, everything delivered in order and one acceptance: both end LINKED, authenticated, with the same token and without retry entries |
| LinkDuel.WinnerStep | src/app/OmniCore.cpp:50-61 | The lower-address side keeps session and token through every event, and what it sends carries that token |
| LinkDuel.LoserStep | src/app/OmniCore.cpp:63-74 | The other side is still asking with its own token or holds the winner's, after every event |
| LinkDuel.BothConnect | src/app/OmniCore.cpp:416-482 | Two idle peers that both connect reach the crossing situation the duel starts from |
| LinkDuel.DuelConverges | src/app/OmniCore.cpp:46-79 | In every run in which nobody gives up the winner keeps its token at LINKING_INIT or later and never waits, the loser never becomes initiator, and once both are past the duel the tokens agree |
| LinkDuel.EachDeliveryDecides | src/app/OmniCore.cpp:50-74 | After any such run each delivered request changes nothing at the winner and leaves the loser in LINKING_WAIT with the winner's token, no session and no retry entry |
| LinkRetries.EachStepMakesProgress | src/app/OmniCore.cpp:625-683 | Every response, handshake datum, accept, reject or timer pass changes nothing, removes the retry entry, or lowers the pair of distance to LINKED and retries left |
| LinkRetries.NeverMoreThanTheBudget | src/app/OmniCore.cpp:625-683 | Without a new connect or request the timer fires at most as often as a closed formula of the record says, along any sequence of events |
| LinkRetries.TheBudgetIsReached | src/app/OmniCore.cpp:110-119 | The formula is exact: a given continuation makes the timer fire that often |
| LinkRetries.SevenFiringsAtMost | src/app/OmniCore.cpp:416-527 | After a connect at most seven firings, and seven are possible, although RetriesLeft is rewritten twice on the way |
| LinkRetries.VanishingRestartsExactly | src/core/InstanceRegistry.hpp:139-143 | A scan that misses the device lets the timer fire more often than before if and only if the device has a session and was past LINKING_WAIT |
| OmniCoreModel.OmniCore.SetConnectionState | src/core/InstanceRegistry.hpp:247-265 | Moves up only, except to FAILED and INACTIVE, and touches no other device |
| OmniCoreModel.OmniCore.OnLinkRequest | src/app/OmniCore.cpp:36-80 | The record of the sender becomes what the duel rule says, no other record changes, and a connect is queued unless the duel was won |
| OmniCoreModel.OmniCore.OnLinkResponse | src/app/OmniCore.cpp:82-169 | The LINKING_WAIT, LINKED and FAILED branches behind the token and session checks, refining Link, for one device only |
| OmniCoreModel.OmniCore.RequestHandshake | src/app/OmniCore.cpp:197-232 | Key pair, handshake data over the session, and a retry entry with one retry |
| OmniCoreModel.OmniCore.HandshakeHandler | src/app/OmniCore.cpp:238-385 | All branches: refused data, already LINKED, response required, in-memory and paired auto-accept, waiting for the user |
| OmniCoreModel.OmniCore.AcceptConnection | src/app/OmniCore.cpp:387-401 | Authenticates before LINKED is announced, stores the pairing when asked, ends the retries |
| OmniCoreModel.OmniCore.RejectConnection | src/app/OmniCore.cpp:403-414 | Announces FAILED with the old token, then resets, without key session or retries |
| OmniCoreModel.OmniCore.ConnectInstance | src/app/OmniCore.cpp:416-549 | New attempt, joined attempt, failed socket, and nothing in the other states |
| OmniCoreModel.OmniCore.ForgetDevice | src/app/OmniCore.hpp:117-121 | Resets the record and clears the key session |
| OmniCoreModel.OmniCore.FailHandshake | src/app/OmniCore.cpp:586-614 | Clears the key session, announces FAILED, resets |
| OmniCoreModel.OmniCore.ClearInstance | src/core/InstanceRegistry.hpp:106-110 | Resets address, state and token of one device and leaves session, retry entry and key session as they were |
| OmniCoreModel.OmniCore.HandleHandshakeRetries | src/app/OmniCore.cpp:625-683 | Whatever order the table is walked in, each due entry is handled exactly once and every other device is left alone |
| SubStreamProtocol.NthIdClosed | src/core/OmniInstances.hpp:207-212 | The n-th allocated identifier is (start + 2n) mod 65536 |
| SubStreamProtocol.RepeatsExactly | src/core/OmniInstances.hpp:207-212 | Two allocations of a side give the same identifier if and only if they are a multiple of 32768 apart |
| SubStreamProtocol.SidesNeverCollide | src/core/InstanceRegistry.hpp:117-121 | The identifiers of the two sides differ at any two allocation counts, wrap-around included |
| SubStreamProtocol.InvalidIdExactly | src/core/OmniInstances.hpp:207-212 | An identifier is the invalid 0 if and only if the side is even and it is the last before a wrap-around |
| SubStreamProtocol.TogglesKeeps | src/app/OmniCore.cpp:748-945 | A whole ToggleFeature call, with the toggles it calls itself for, keeps the two-peer invariant: what it announces as active is the stream it has just opened, and otherwise streams only go away |
| SubStreamProtocol.SafeRun | src/app/OmniCore.cpp:1017-1264 | Every run of whole toggles, stream requests and releases on both peers, with messages lost and reordered, keeps the invariant over registries, messages and allocation counts |
| SubStreamProtocol.EntriesAreRight | src/app/OmniCore.cpp:1175-1251 | In every reachable state outbound entries have the own parity, inbound ones the peer's, and an opener's entry is active only if the peer was handed its Create and answered |
| SubStreamProtocol.NothingIsOverwritten | src/core/OmniInstances.hpp:214-223 | In every reachable state neither an allocation, by a request or inside a toggle, nor a delivered Create names a live entry or 0 |
| SubStreamEffects.MessageStreamsExactly | src/app/OmniCore.cpp:1174-1259 | For every message the entry of every identifier afterwards, from a table |
| SubStreamEffects.MessageAnswersExactly | src/app/OmniCore.cpp:1210-1219 | The one answer to any message is a Connect for a Create whose stream came up, with the own port |
| SubStreamEffects.MessageFlagsExactly | src/app/OmniCore.cpp:962-986 | For every message each feature's flag in each direction afterwards |
| SubStreamEffects.BecomesActiveExactly | src/app/OmniCore.cpp:1232-1254 | A pending stream becomes active by a message if and only if it is its own Connect, or a Create in its place, and the socket connects |
| SubStreamEffects.RequestExactly | src/app/OmniCore.cpp:1017-1053 | What opening a stream does to every entry, the next identifier, flags and messages |
| SubStreamEffects.ReleaseExactly | src/app/OmniCore.cpp:1106-1147 | What closing a stream does to every entry, flags and messages |
| SubStreamEffects.ReleaseAllExactly | src/app/OmniCore.cpp:1149-1160 | Closing all streams of a feature ends exactly those and says so once each |
| SubStreamEffects.OncePerStream | src/app/OmniCore.cpp:822-839 | Turning a feature off says so once for each of its streams and disconnects each once |
| SubStreamEffects.ToggleSendsExactly | src/app/OmniCore.cpp:765-945 | Every message a whole toggle adds, for each feature and direction and with those it excludes or needs, and no other; nothing while the link is down |
| SubStreamEffects.ToggleStreamsExactly | src/app/OmniCore.cpp:765-945 | The entry of every identifier and the next identifier after a whole toggle |
| SubStreamEffects.ToggleFlagsExactly | src/app/OmniCore.cpp:765-945 | The flags of both directions after a whole toggle from a consistent state, link up or down |
| SubStreamEffects.SharedFeaturesAgree | src/app/OmniCore.cpp:889-923 | After InputLink or ClipboardLink was toggled and the message delivered, both peers have it on or both off, in both directions |
| SubStreamEffects.StreamComesUp | src/app/OmniCore.cpp:1042-1254 | From any state: opened, Create delivered, Connect delivered, and both ends of the stream are active |
| SubStreamEffects.FirstStreamComesUp | src/app/OmniCore.cpp:1042-1254 | The same for a first stream, as a run from the activation of the pair |
| SubStreamEffects.FeatureComesUp | src/app/OmniCore.cpp:794-815 | After a ScreenLink or AudioLink toggle and its messages the flag is set and the stream active, outbound here and inbound there |
| ActiveInstance.SetBitIsOneFlag | src/core/OmniInstances.hpp:276-288 | On 32-bit flag words: setting or clearing the bit of a feature changes that feature and no other |
| ActiveInstance.OmniActiveInstance.GetSubStreams | src/core/OmniInstances.hpp:252-261 | Exactly the identifiers tagged with the feature, each once, in whatever order the map is walked |
| ActiveInstance.OmniActiveInstance.SetFeatureState | src/core/OmniInstances.hpp:276-288 | One flag of one route changes and the active word stays the union of both routes |
| ActiveInstance.OpenSubStream | src/app/OmniCore.cpp:1017-1064 | Allocates, registers as pending and announces, or fails without a free socket; 0 reads as failure |
| ActiveInstance.CloseSubStreams | src/app/OmniCore.cpp:1149-1160 | All streams of a feature are gone and the peer got one Disconnect for each, in any order |
| ActiveInstance.SubStreamHandler | src/app/OmniCore.cpp:1162-1264 | Create, Connect and Disconnect with every failing socket outcome |
| ActiveInstance.UpdateFeatureState | src/app/OmniCore.cpp:718-746 | A stream's deactivation clears the flag only when no other stream carries the feature |
| ActiveInstance.DeactivateStreams | src/app/OmniCore.cpp:822-839 | The loop that tells the peer about every stream and the closing after it, as one change |
| ActiveInstance.ToggleFeature | src/app/OmniCore.cpp:748-945 | The recursive toggle terminates and ends in the state the non-recursive specification gives |
| ActiveInstance.FeatureStateHandler | src/app/OmniCore.cpp:947-1015 | What a peer's toggle does to flags, entry and stream |
| Features.ConsistentExactly | src/app/OmniCore.cpp:748-945 | One toggle or window drag keeps the exclusions, dependencies and stream counts if and only if it does not get identifier 0 or a live one |
| Features.ConsistentRunsExactly | src/app/OmniCore.cpp:748-945 | The same over every sequence of events, with failing transmissions and sockets |
| Features.ConsistentFromActivation | src/core/InstanceRegistry.hpp:112-122 | From activation on nothing breaks while fewer identifiers were allocated than the parity has |
| Features.PeerToggleExactly | src/app/OmniCore.cpp:962-979 | A peer's toggle without a stream keeps the outbound side consistent unless it takes InputLink from an active WindowLink |
| BurstQueue.MaskAdvances | src/core/BurstQ.hpp:10-21 | For a power-of-two size the masked increment is the next index of the ring, on 32-bit words |
| BurstQueue.PushAppends | src/core/BurstQ.hpp:15-23 | On slots and indices: a push is an append, refused if and only if Size - 1 items are queued |
| BurstQueue.PopRemoves | src/core/BurstQ.hpp:25-57 | On slots and indices: a pop removes the oldest item, which is the one in the tail slot |
| BurstQueue.BurstQ.Push | src/core/BurstQ.hpp:15-23 | Appends, or refuses if and only if Size - 1 items are queued |
| BurstQueue.BurstQ.Pop | src/core/BurstQ.hpp:25-32 | Removes the oldest item, or fails if and only if there is none |
| BurstQueue.BurstQ.Peek | src/core/BurstQ.hpp:51-57 | The oldest item or nothing |
| BurstQThreads.ProducerStepKeeps | src/core/BurstQ.hpp:15-23 | Every load and store of push keeps the invariant, whatever stale Tail it loads |
| BurstQThreads.ConsumerStepKeeps | src/core/BurstQ.hpp:25-42 | Every load and store of both pops and of the command loop keeps it, whatever stale Head is loaded |
| BurstQThreads.ReachableStates | src/app/OmniCore.hpp:210-285 | In every interleaving: popped is a prefix of pushed, every command is executed exactly once in push order, at most Size - 1 are held, no readable slot is written, the command being executed stays in its slot, and its pop never fails |
| BurstQThreads.StepRefinesFifo | src/core/BurstQ.hpp:15-57 | Each step is no step, an append with room, or a removal of the head of a bounded FIFO, and refusals happen exactly when the seen FIFO is full or empty |
| BurstQThreads.RingHoldsTheQueue | src/core/BurstQ.hpp:15-57 | In every state between two pops the slots between the two indices are exactly the pushed items not popped yet |
| BurstQThreads.UninterruptedPush | src/core/BurstQ.hpp:15-23 | The loads and stores of a push nobody interrupts are the whole push |
| BurstQThreads.UninterruptedPop | src/core/BurstQ.hpp:25-32 | The loads and stores of a pop nobody interrupts are the whole pop |
| EncoderRing.BufferedNvencSession.Encode | src/codec/nvenc.hpp:218-286 | The whole new ring for a busy slot, each failing driver call and success |
| EncoderRing.BufferedNvencSession.Zencode | src/capture/EncodeStream.hpp:61-84 | The sender is told to release exactly the slot that was encoded, which is locked, in use and holds the frame |
| EncoderRing.EncodesExactly | src/codec/nvenc.hpp:218-286 | For each slot and every driver outcome: use mark, lock and frame afterwards, the index and the count of dropped frames |
| EncoderRing.UninterruptedEncode | src/codec/nvenc.hpp:218-286 | The steps of an Encode that nobody interrupts are the whole call, for every driver outcome |
| EncoderRing.LentSlotsAreStable | src/codec/nvenc.hpp:210-286 | No step but its own release touches the frame, lock or use mark of a slot the sender holds |
| EncoderRing.HandsTheSlotJustEncoded | src/capture/EncodeStream.hpp:73-84 | The slot handed over is (successes - 1) mod 3 and holds the frame just encoded |
| EncoderRing.ReachableStates | src/codec/nvenc.hpp:205-286 | In every interleaving in use implies locked, a picture is encoded only into a buffer neither in use nor locked, in-use slots are successes minus releases, and the next success uses slot successes mod 3 |
| EncoderRing.HeldUntilReleased | src/codec/nvenc.hpp:205-286 | Along every run a slot keeps its frame, locked and in use, from the hand-over to its release |
| CachedPool.HoldsTheLatestMisses | src/codec/nvenc.cpp:433-479 | After any sequence of lookups the cache is exactly the most recent misses that fit, oldest first, each texture once |
| CachedPool.EvictsTheOldest | src/codec/nvenc.cpp:463-478 | A full cache gives up its longest-resident entry and no other |
| CachedPool.CachedPoolNvencSession.ResolveCachedResource | src/codec/nvenc.cpp:433-479 | The pool with its eviction index refines the FIFO cache, also when the driver gives the evicted handle straight back; the current handle is the one registered for the texture, and live handles and registration balance stay those of the occupied slots |
| CachedPool.CachedPoolNvencSession.NVCleanup | src/codec/nvenc.cpp:419-431 | No handle is left registered and the balance is zero |
| Router.ConservedExactly | src/core/OmniRouterContext.cpp:51-59 | A single atomic step keeps count = sessions - pending adds + pending subs modulo 2^32 if and only if it does not register null over a session |
| Router.ConservedInEveryRun | src/core/OmniRouterContext.cpp:77-94 | In every run with any number of threads between exchange and counter change it holds at every boundary if and only if no step registers null over a session |
| Router.CountIsExactAtRest | src/core/OmniRouterContext.cpp:77-94 | With no thread in between the counter is the number of registered sessions |
| Router.SlotsHoldTheLastStored | src/core/OmniRouterContext.cpp:77-94 | After any run each slot holds what the last exchange there stored |
| Router.OwesExactly | src/core/OmniRouterContext.cpp:80-92 | A thread owes an increment exactly after putting a session where none was, a decrement exactly after removing one |
| Router.UninterruptedCalls | src/core/OmniRouterContext.cpp:77-94 | The exchange and the owed counter change of a thread nobody interrupts are the whole call |
| Router.RegisterExactly | src/core/OmniRouterContext.cpp:77-85 | A call keeps the count exact if and only if it does not register null over a session |
| Router.OmniRouter.RegisterWindowSession | src/core/OmniRouterContext.cpp:77-85 | The slot holds the session, every other slot is unchanged, the count rises exactly from null to a session, and an exact count stays exact unless a session is dropped |
| Router.OmniRouter.UnregisterWindowSession | src/core/OmniRouterContext.cpp:87-94 | The slot is null, every other slot is unchanged, the count falls by one exactly if a session was there, and an exact count stays exact |
| ByteStream.ValOfBe | src/core/ByteStream.hpp:20-37 | Reading n big-endian bytes gives back every number that n bytes hold |
| ByteStream.BeOfVal | src/core/ByteStream.hpp:41-65 | Writing the number read gives back the same bytes, for every byte string |
| ByteStream.Shifts64 | src/core/ByteStream.hpp:86-96 | The eight shifted bytes are the big-endian number, as two 32-bit halves |
| ByteStream.Assemble32 | src/core/ByteStream.hpp:25-29 | The four shifted and joined bytes are the big-endian number |
| ByteStream.RecordRoundTrip | src/core/ByteStream.cpp:3-29 | Reading a record of any fields undoes writing it and leaves any suffix untouched |
| ByteStream.RecordCanonical | src/core/ByteStream.cpp:67-72 | What a reader consumed is the one encoding of the record it returned |
| ByteStream.ByteVecStreamEx.WriteU64Ex | src/core/ByteStream.cpp:266-270 | Appends one eight-byte number; the length stays that of the data modulo 2^32 |
| ByteStream.ByteVecStreamEx.WriteString | src/core/ByteStream.cpp:272-283 | Appends the bytes, or nothing when 32 bits cannot count them |
| ByteStream.ByteStreamReader.ReadU64Ex | src/core/ByteStream.cpp:3-8 | Takes one eight-byte number and moves cursor and remaining length alike |
| Clipboard.RoundTripExactly | src/clipboard/ClipboardTypes.hpp:82-172 | Parsing what was written, before any suffix, gives the manifest back and exactly that suffix if and only if item count and strings fit 32 bits; any number of items |
| Clipboard.Canonical | src/clipboard/ClipboardTypes.hpp:127-172 | Whatever parses is the encoding of its result plus the rest, and its result fits |
| Clipboard.ManifestOnTheWire | src/clipboard/ClipboardTypes.hpp:93-122 | The bytes of a fitting manifest: every field in its place and width, then the items from the first to the last |
| Clipboard.Serialize | src/clipboard/ClipboardTypes.hpp:93-125 | The writer loop produces that encoding for every manifest, fitting or not |
| Clipboard.TotalPayloadSize | src/clipboard/ClipboardTypes.hpp:84-91 | For a fitting manifest the precomputed size is the true length modulo 2^32, and exact if and only if that is below 2^32 |
| Clipboard.Deserialize | src/clipboard/ClipboardTypes.hpp:127-172 | The reader loop returns what the parser says and stands right behind the manifest |
| Packets.ArgsRoundTrip | src/core/OmniPackets.hpp:139-172 | Each of the six argument kinds is read back as written, before any suffix |
| Packets.ArgsCanonicalExactly | src/core/OmniPackets.hpp:182-205 | Re-encoding what was read gives the same bytes if and only if no response carries a trust byte above 1 |
| Packets.BytesOnTheWire | src/core/OmniPackets.hpp:28-260 | The bytes of each of the six kinds, field by field |
| Packets.IndicesOnTheWire | src/core/OmniPackets.hpp:263-269 | The index of each kind, 0 to 5 |
| Packets.SerializeArgs | src/core/OmniPackets.hpp:28-260 | The six writers field by field |
| Packets.DeserializeArgs | src/core/OmniPackets.hpp:20-251 | The six readers field by field |
| Packets.VariantIndex | src/core/Helper.hpp:26-33 | The counting fold yields the first position of the type, or all ones if it is no alternative |
| Packets.EveryAlternativeHasItsIndex | src/core/Helper.hpp:35-36 | Every alternative has an index below six and no other index leads to it |
| Packets.NetVariantDeserializer | src/core/NetVariance.hpp:8-19 | Exactly the alternative with the index is decoded and the reader advances by that one record; a foreign index leaves destination and reader as they were |
| Packets.CommandRoundTripExactly | src/core/OmniPackets.hpp:307-357 | A command is read back as written if and only if its stored length is that of its arguments |
| Packets.CommandCanonical | src/core/OmniPackets.hpp:340-357 | Whatever parses is the encoding of its result plus the rest |
| Packets.CommandOnTheWire | src/core/OmniPackets.hpp:307-320 | The bytes of the envelope and the arguments behind it |
| Packets.EndToEnd | src/core/OmniPackets.hpp:307-357 | For every argument value, command type, token, destination and suffix: tagging, serializing, parsing and variant decoding give back exactly that command and value, with no byte of the argument left over |
| Commands.TransmitNetCommand | src/app/OmniCore.hpp:313-356 | Nothing leaves without a session or when a needed token cannot be made; else the command with its token, serialized |
| Commands.HandleCommand | src/app/platform/windows/OmniLink.cpp:31-63 | A void command by its number; else parse, drop when the token does not verify, and hand on type, token, decoded argument and device, which the Linux receiver replaces by C0 |
| Commands.Delivered | src/app/OmniCore.hpp:405-417 | A command leaves the sender if and only if it needs no token or the session can make one, and then a peer with the same session executes it on exactly the value it was built from |
| Commands.ExecutedExactly | src/app/OmniCore.hpp:405-417 | A packet is executed if and only if its command type needs no token or it carries the session's own non-zero token for its type and index, and then with exactly its fields; else it is refused |
| Commands.TypesAreGuarded | src/core/OmniEnums.hpp:71-80 | By the codes on the wire: InitiateHandshake and ConnectDevice pass without a token; SwapLayout, ToggleFeature and SubStream are not sent without one and are refused without the session's own |
| Commands.VoidExactly | src/app/platform/windows/OmniLink.cpp:33-35 | A packet whose last byte is 0 is the void command of its first four bytes, little-endian |
| Commands.GateLooksAtTheTypeAlone | src/app/OmniCore.hpp:210-285 | Under a session without tokens every argument value is executed all the same in a command of type 0, although the queue dispatches on the argument |
| SlotAllocator.SetOneBit | src/core/InstanceRegistry.hpp:103-109 | On the 32-bit mask: or-ing in or and-ing out 1 << slot changes that bit and no other |
| SlotAllocator.BitScanIsLowest | src/core/PlatformIntrinsics.hpp:9-20 | On every non-zero word the bit scan gives the lowest set bit |
| SlotAllocator.StartIsStale | src/core/InstanceRegistry.hpp:31-68 | As constructed, 0x1FF with the local device in C0, mask and slots disagree and the bit scan gives the local device's own slot |
| SlotAllocator.ScansExactly | src/core/InstanceRegistry.hpp:82-83 | The bit scan of the mask is the lowest empty slot if and only if C0's bit is not stale, and else it is C0 |
| SlotAllocator.AddedAgrees | src/core/InstanceRegistry.hpp:90-103 | After an automatic add the set bits are exactly the empty slots, stale before or not |
| SlotAllocator.PopCountExactly | src/core/InstanceRegistry.hpp:75-75 | The population count is the number of empty slots, and one more while C0's bit is stale |
| SlotAllocator.PopCountIsEmptySlots | src/core/InstanceRegistry.hpp:75-75 | While mask and slots agree the population count of the mask is the number of empty slots |
| SlotAllocator.StartAgrees | unit_tests/InstanceRegistryTest.cpp:22-33 | 0x1FF with C0's bit cleared agrees with a grid in which only C0 is taken |
| SlotAllocator.OmniInstanceRegistry.constructor | src/core/InstanceRegistry.hpp:47-68 | The mask is 0x1FF, and stale if and only if the local device has an address |
| SlotAllocator.OmniInstanceRegistry.GetAllInstancesCount | src/core/InstanceRegistry.hpp:75-75 | The number of empty slots, and one more while C0's bit is stale |
| SlotAllocator.OmniInstanceRegistry.AddInstance | src/core/InstanceRegistry.hpp:77-104 | Takes the lowest empty slot and overwrites no other if and only if C0's bit is not stale; else it overwrites the local device; afterwards mask and slots agree |
| SlotAllocator.OmniInstanceRegistry.ClearInstance | src/core/InstanceRegistry.hpp:106-110 | Resets address, link state, token and resolution of one slot, keeps mask and slots in step, and leaves the address in the lookup |
| SlotAllocator.OmniInstanceRegistry.RefreshInstanceList | src/core/InstanceRegistry.hpp:128-162 | Vanished devices and no others are cleared, new addresses get slots unless all are taken, known addresses never get one, and whoever stays is left alone except a local device whose bit is stale, in whatever order the scan results come |

## Left out

- Sockets, discovery broadcast, completion ports, TCP streams, GUI, logging, notifications, rendering, Direct3D and driver calls: only their success or failure is a parameter.
- Keys, secrets, passkeys and stored pairing tokens: the three flags of a key-exchange session and one paired flag per device stand for them; `OmniQrypt` itself is not part of this model.
- Wall-clock time: a due retry entry is a nondeterministic event, and a token is any non-zero number.
- A link-state byte outside the seven values: no branch handles it, which is what an INACTIVE response gets too.
- Races between the discovery thread and the command thread inside one handler: every handler is one atomic step, and a queued connect may run at any later time or never.
- What `ResetInstance` does to the sub-streams of the device: the handshake model has no sub-streams, and the sub-stream model is about one activation of the pair.
- Feature toggles while messages of the peer interleave with a toggle, and a link that goes up or down within one call.
- Duplicated sub-stream messages: commands travel over a session that does not repeat them.
- SubStreamProtocol.NothingIsOverwritten: assumes fewer than 32767 allocations per side within one activation; after that identifiers repeat, as `RepeatsExactly` says.
- LinkDuel.DuelConverges: is about runs in which nobody rejects, forgets, times out, is missed by a scan or fails to open a socket, since each of these ends the attempt.
- That a datagram to a cleared address 0 reaches nobody: the network may lose it, like any other.
- Several producers on one command queue: the ring is proved for one producer, which is all its indices support.
- Moving the ring's indices by mask on 32-bit words: `MaskAdvances` shows it is the increment the ring is modelled with; sizes that are no power of two are allowed in the model.
- CachedPool.CachedPoolNvencSession.ResolveCachedResource: assumes that a non-null texture has a non-null identity and that the driver never returns a handle that is registered when it is asked; the handle an eviction has just unregistered may come straight back.
- Router `Reset` and plain `RegisterSession`, which change the arrays without the counter.
- The bit-scan and population-count instructions are defined by recursion over the bits of the word; instance names and printed addresses are left out of a slot.
- SlotAllocator.OmniInstanceRegistry.AddInstance: assumes an open slot and a non-zero address; the bit scan of an empty mask has no meaning, and an instance with address 0 reads as an empty slot.
- `SwapInstances`, `ConnectGroup` and `AddInstance` with an explicit slot, which do not keep mask and slots in agreement.
- Reads past the end of a buffer: the unchecked readers have no meaning there, so `Deserialize` requires that the bytes parse.
- ByteStream.ByteVecStreamEx.WriteBytes: requires that the new size fits 32 bits, because the code computes it there before it copies.
- `WindowCreationData`, which is no alternative of the argument variant, and the `OmniNetCommand::Serialize` overload that writes into a given vector.
- How an action token is computed: it is any function of the command type and the argument index, the same for two peers with the same session.
- `AsyncWorker`, `AsyncDispatch`, `FlowMorph` and `ComputeRelativeSpatialID`: unfinished, trivial or a finite table.
