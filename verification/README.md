# Verified model of alknet's protocol core

This project models the parts of alknet that carry its guarantees and proves
them for all inputs, all chunkings, all interleavings and all runs:

- the framed call transport: length-prefixed JSON envelopes, the two
  incremental readers, the raw session with its first-frame authentication, and
  the SSH control-channel bridge with its take-once hand-off
  (`Frame`, `FrameReader`, `Events`, `RawFraming`, `Bridge`, `ControlChannel`);
- the secret service over its LRU and TTL key cache, and derivation paths
  (`KeyCache`, `SecretService`, `Derivation`, `Text`);
- SOCKS5 (RFC 1928), both ends and their conversation (`Socks5`,
  `Socks5Handshake`);
- admission and authentication limits (`Admission`, `AuthAttempts`);
- reconnection schedules, remote forwards and pending requests (`Reconnect`,
  `Pending`);
- port-forward texts, the forwarding policy and the operation registry
  (`ForwardSpec`, `ForwardingPolicy`, `Registry`).

Check everything with `dafny verify dfyconfig.toml`.

## How the model is built

- Objects the code updates in place are classes; each method is proved equal to
  a function on values, and the run theorems are about those functions. Tasks
  that interleave are step systems in which a step that is not enabled does
  nothing, so a list of steps stands for any schedule.
- Outside code is a parameter: JSON is a pair `ser`/`parse`, cryptography a
  record of functions, UTF-8 a pair `utf8`/`lossy`, CIDR containment a
  predicate. The laws assumed of them are the predicates `Codec.Lawful`,
  `Texts.Lawful`, `Crypto.KeySizes` and `Crypto.OpensWhatItSealed`, required only
  where a lemma names them. Clocks, random phrases, provider answers, openers
  and transport failures are inputs chosen freely at every call.
- `usize` has 64 bits. Casts to narrower integers truncate as in the code
  (frame length, domain length), and 32-bit counters and the hardened offset
  wrap around, as they do in a release build; a debug build panics instead.
- Error messages are dropped where they only explain; error kinds are kept.

## Where the code does less than it seems to promise

- A frame whose body has 2^32 bytes or more does not decode back to its
  envelope: `RoundTripIffFits` gives the exact condition. A SOCKS5 domain of more
  than 255 bytes does not read back either: `ReplyRoundTripIffFits`.
- After a malformed body the framed reader goes on with the next frame, but a
  raw session repeats the failure for ever: `ReadersAgreeUntilMalformed`.
- The key cache is keyed by path alone, so a path used with both curves answers
  one with the other's key and label: `SharedPathAnswersWrongCurve` exhibits
  it, `AnswerIsDirectIff` says exactly when it happens.
- `maxEntries == 0` still keeps one entry: `Capacity`.
- `check` and `on_connect` are separate, so `k` constructors in flight may
  overshoot the limit by `k - 1`, and do: `CountNeverExceeds`, `OvershootReached`.
- Device indices from 2^31 on are not hardened: `DevicePathParses`,
  `DevicePathCollides`.
- After 2^32 consecutive failures the backoff starts again: `WaitIsCappedIff`.
- Resolving a subscription's id as a call drops the subscription:
  `SubscriptionStep`.
- The comment on `decrypt` (crates/alknet-secret/src/encryption.rs:156) asks for a
  key that matches `key_version`, and an error exists for a mismatch. Nothing
  compares the two: any version opens what the same bytes sealed, and the service
  always builds the key with the blob's own version: `KeyVersionIsOnlyRecorded`.
- A raw session writes through a buffer, so a send that reported a failure may
  still reach the peer, ahead of the next one: `SuccessCarriesEarlierFailures`.
- An authenticated raw session that meets a malformed frame stays authenticated
  and delivers nothing more: `MalformedFrameIsFinal`.

## Model

| member | source | states |
|---|---|---|
| Prelude.U32ToBe | crates/alknet-core/src/call/frame.rs:9-11 | four bytes that decode back to the number |
| Prelude.U32Weights | crates/alknet-core/src/call/frame.rs:23 | decoding weighs the first byte most |
| Prelude.U32Canonical | crates/alknet-core/src/call/frame.rs:23 | every four bytes are the encoding of what they decode to |
| Frame.RoundTripIffFits | crates/alknet-core/src/call/frame.rs:7-53 | decoding an encoded envelope followed by anything returns it and its exact length if and only if its body is under 2^32 bytes |
| Frame.DecodersAgree | crates/alknet-core/src/call/frame.rs:16-53 | the two decoders succeed and fail alike, and tell a whole frame from a short one |
| Frame.HeadStable | crates/alknet-core/src/call/frame.rs:23-29 | a whole frame at the head of a buffer is the same frame whatever bytes arrive after it |
| Frame.ItemsSplit | crates/alknet-core/src/call/frame.rs:81-109 | a stream can be decoded in two parts cut anywhere, carrying the leftover |
| Frame.ItemsOfEncodeAll | crates/alknet-core/src/call/frame.rs:7-14 | concatenated encodings decode to exactly the envelopes |
| Frame.LeftoverOfEncodeAll | crates/alknet-core/src/call/frame.rs:7-14 | and no byte of them is left over |
| FrameReader.FrameFramedReader.ReadFrame | crates/alknet-core/src/call/frame.rs:81-109 | outcome, buffer and remaining reads are those of `NextFrame`, over any chunks and I/O errors |
| FrameReader.FrameFramedReader.AbandonRead | crates/alknet-core/src/interface/ssh.rs:671-672 | a dropped read future leaves the chunks it had read in the buffer |
| FrameReader.FrameFramedWriter.WriteFrame | crates/alknet-core/src/call/frame.rs:124-129 | writes the part of the encoding that the transport takes, and succeeds if and only if that is all of it and the flush succeeds |
| FrameReader.AbandonedReadIsHarmless | crates/alknet-core/src/call/frame.rs:81-109 | dropping a read anywhere and starting again gives the same frame and loses no byte |
| FrameReader.NextFrameMeaning | crates/alknet-core/src/call/frame.rs:81-109 | a call hands out the first frame of the bytes ahead whatever the chunking and removes exactly it; end of stream and I/O errors lose nothing |
| FrameReader.RawNextMeaning | crates/alknet-core/src/interface/raw_framing.rs:68-89 | the same for the raw session, which keeps a malformed frame and then repeats the failure |
| FrameReader.CallOutcomeIs | crates/alknet-core/src/call/frame.rs:81-109 | what a call of either reader returns, from its input alone: the first frame if it is complete before the first read error, that error if it comes first, else end of stream |
| FrameReader.Conservation | crates/alknet-core/src/call/frame.rs:81-109 | over any run, consumed, buffered and unread bytes make up the stream and the frames handed out are those of the consumed bytes |
| FrameReader.ReadFramesClosedForm | crates/alknet-core/src/call/frame.rs:81-109 | without read errors the i-th call returns the i-th frame, then end of stream, ending with the incomplete tail buffered |
| FrameReader.WrittenFramesAreRead | crates/alknet-core/src/call/frame.rs:7-109 | any split of concatenated encodings reads back as exactly the envelopes, then none, with an empty buffer |
| FrameReader.RawFramesClosedForm | crates/alknet-core/src/interface/raw_framing.rs:68-89 | without read errors the i-th read is the i-th frame up to the first malformed body, and that failure from there on |
| FrameReader.ReadersAgreeUntilMalformed | crates/alknet-core/src/interface/raw_framing.rs:68-89 | on the same bytes, chunked differently, both readers agree up to the first malformed body; then one resumes at the next frame and the other repeats its failure |
| RawFraming.RawFramingSession.ReadFrame | crates/alknet-core/src/interface/raw_framing.rs:68-89 | outcome, buffer and remaining reads are those of `RawNext` |
| RawFraming.RawFramingSession.RecvEvent | crates/alknet-core/src/interface/raw_framing.rs:101-139 | event and new session state are those of `Recv`, for any provider answer |
| RawFraming.RawFramingSession.SendEnvelope | crates/alknet-core/src/interface/raw_framing.rs:91-146 | result, bytes written and bytes still buffered are those of `Send`, for any transport: refused without effect once failed |
| RawFraming.NothingBeforeAuthentication | crates/alknet-core/src/interface/raw_framing.rs:101-146 | over every run of receives and sends the provider is asked at most once; there are events if and only if it resolved; they are the first frames in order, and their one identity is what the first receive's provider answered for the first frame's token |
| RawFraming.SessionSafety | crates/alknet-core/src/interface/raw_framing.rs:101-146 | every run of receives and sends keeps the session invariant behind it |
| RawFraming.AuthenticatedReceives | crates/alknet-core/src/interface/raw_framing.rs:104-113 | an authenticated receive delivers if and only if a good frame is complete before any read error, and exactly that frame with the identity |
| RawFraming.DeliversItsReads | crates/alknet-core/src/interface/raw_framing.rs:101-139 | over every run, read errors included, a session that ends up authenticated has delivered exactly the envelopes of as many reads as it was asked to receive, with its identity; any other session nothing |
| RawFraming.DeliversWhatIsAsked | crates/alknet-core/src/interface/raw_framing.rs:101-139 | without read errors the number of events after any run is the number of receives, up to the first malformed frame or the end |
| RawFraming.SendSucceedsIff | crates/alknet-core/src/interface/raw_framing.rs:91-146 | a send succeeds if and only if its frame and everything buffered before it are out, nothing is left, and the flush succeeded |
| RawFraming.FailedIsAbsorbing | crates/alknet-core/src/interface/raw_framing.rs:101-146 | after failure nothing is read, asked, delivered or written and every send is refused |
| RawFraming.MalformedFrameIsFinal | crates/alknet-core/src/interface/raw_framing.rs:84-114 | an authenticated session whose next frame is malformed delivers nothing more in any run, and neither fails nor loses the frame |
| RawFraming.FirstReceiveDecides | crates/alknet-core/src/interface/raw_framing.rs:101-138 | over every run, authentication is pending until the first receive and from then on exactly its verdict: the identity its provider gives for the token of the first frame, if that frame is complete before any read error and well formed; failed otherwise |
| RawFraming.OutputIsWhatWasTaken | crates/alknet-core/src/interface/raw_framing.rs:91-96 | on every transport, nothing the writer took is lost, doubled or reordered |
| RawFraming.WrittenIsWhatWasSent | crates/alknet-core/src/interface/raw_framing.rs:91-96 | on every transport, failed flushes included, bytes out and bytes buffered are the frames of the envelopes sent while not failed, in order, as long as the writer takes frames whole |
| RawFraming.SuccessCarriesEarlierFailures | crates/alknet-core/src/interface/raw_framing.rs:91-96 | a successful send leaves nothing buffered: the frames of earlier failed sends are out ahead of its own |
| Bridge.RunControlChannelBridge | crates/alknet-core/src/interface/ssh.rs:657-699 | for any select choices the final reader, queue, events, bytes written and reason to stop are those of `Run` |
| Bridge.RunPreservesInbound | crates/alknet-core/src/interface/ssh.rs:671-686 | every run keeps: while running, the frames after those delivered are exactly the ones still ahead, and the reason to stop says which came next |
| Bridge.RunPreservesOutbound | crates/alknet-core/src/interface/ssh.rs:687-697 | every run keeps: the bytes written are the encodings of the envelopes no longer queued, the last one cut short only by a write error, and whole after a flush error |
| Bridge.PeerReadsWholeFrames | crates/alknet-core/src/interface/ssh.rs:687-697 | a cut-off frame at the end of the outbound bytes never decodes, so a peer reads exactly the whole ones |
| Bridge.BridgeSafety | crates/alknet-core/src/interface/ssh.rs:657-699 | in every interleaving with reads abandoned anywhere, events are a prefix of the inbound frames with the one identity, outbound bytes the encodings of a prefix of the queue plus at most part of one frame on a write error, none if only the flush failed, and the reason to stop says what was left |
| Bridge.ReceiveMeaning | crates/alknet-core/src/interface/ssh.rs:672-686 | what a read turn does, from the bytes before the first read error: deliver the frame and go on, or stop with the matching reason and deliver nothing |
| Bridge.BridgeRunsOnIff | crates/alknet-core/src/interface/ssh.rs:670-698 | a bridge is still running if and only if every turn found a good frame ahead of any read error and a receiver, or an envelope and a transport that takes it; it has then delivered one event per read turn and written one whole frame per queue turn, in order |
| Bridge.EnoughIsSmooth | crates/alknet-core/src/interface/ssh.rs:670-698 | with enough good frames and envelopes, a receiver and a willing transport, that holds for every schedule |
| Bridge.EndingHasCause | crates/alknet-core/src/interface/ssh.rs:679-696 | every ending has its cause among the turns: a read error only if the stream has one, a missing receiver only after a refused event, a write error only after a transport that stopped short or failed to flush |
| Bridge.BridgeEndToEnd | crates/alknet-core/src/interface/ssh.rs:657-699 | what a peer wrote as frames arrives as events in order, all of it if the peer closed; and a peer reading the outbound bytes sees exactly the envelopes sent whole |
| ControlChannel.SshHandler.ChannelOpenDirectTcpip | crates/alknet-core/src/interface/ssh.rs:201-260 | decision and remaining hand-off state are those of `OpenDirect`, with the identity authenticated at that moment |
| ControlChannel.BridgeStartsOnFirstControlOpen | crates/alknet-core/src/interface/ssh.rs:201-220 | over any opens, a bridge starts if and only if this is the first open of the control destination, so at most once |
| ControlChannel.ReservedNamesStayInside | crates/alknet-core/src/interface/ssh.rs:201-260 | an open is proxied if and only if its name is not reserved and the policy allows it |
| ControlChannel.HandlerTakesFirstOther | crates/alknet-core/src/interface/ssh.rs:221-232 | the router's handler starts if and only if this is the first reserved open that does not start the bridge |
| ControlChannel.ControlIsNeverProxied | crates/alknet-core/src/interface/ssh.rs:201-220 | the control destination is a reserved name, never proxied, and starts the bridge while its channels are there |
| KeyCache.KeyCache.Lookup | crates/alknet-secret/src/cache.rs:126-138 | the key found and the new map and order are those of `Get` |
| KeyCache.KeyCache.Store | crates/alknet-secret/src/cache.rs:145-153 | the new map and order are those of `Insert`, replacement and eviction included |
| KeyCache.KeyCache.DropExpired | crates/alknet-secret/src/cache.rs:156-168 | removes exactly the expired paths from map and order, in whatever order it goes through them |
| KeyCache.KeyCache.RemoveEntry | crates/alknet-secret/src/cache.rs:186-189 | removes the path from map and order and nothing else |
| KeyCache.KeyCache.Clear | crates/alknet-secret/src/cache.rs:171-174 | leaves the cache empty |
| KeyCache.HitIffFresh | crates/alknet-secret/src/cache.rs:60-62 | a lookup succeeds if and only if the path is stored and no older than the time to live |
| KeyCache.StoredIsFound | crates/alknet-secret/src/cache.rs:145-153 | a stored key is found, as stored, until it expires |
| KeyCache.LookupRemovesExpired | crates/alknet-secret/src/cache.rs:126-138 | a lookup removes the entry it finds expired and no other entry |
| KeyCache.SweepKeepsFresh | crates/alknet-secret/src/cache.rs:156-168 | the sweep keeps exactly the unexpired entries, unchanged, in map and order |
| KeyCache.RunValid | crates/alknet-secret/src/cache.rs:126-200 | in every run the order lists the map's keys once each and the size stays within max(1, max_entries) |
| KeyCache.RunOrderedByRecency | crates/alknet-secret/src/cache.rs:126-200 | in every run the access order is the order of last use, with the paths no longer cached left out |
| KeyCache.EvictedOnlyAfterCapacityOthers | crates/alknet-secret/src/cache.rs:126-200 | an unexpired entry is lost only after max(1, max_entries) distinct other paths were inserted or hit since its last use, other entries expiring or not |
| KeyCache.CachedIffFewerThanCapacityOthers | crates/alknet-secret/src/cache.rs:126-200 | when nothing expires meanwhile it is still cached if and only if fewer distinct other paths were used |
| SecretService.SecretServiceHandle.UnlockWith | crates/alknet-secret/src/service.rs:141-154 | result and new state are those of `Unlock` |
| SecretService.SecretServiceHandle.UnlockGenerated | crates/alknet-secret/src/service.rs:160-174 | result and new state are those of `UnlockNew` |
| SecretService.SecretServiceHandle.Lock | crates/alknet-secret/src/service.rs:181-187 | leaves no seed, no mnemonic and an empty cache |
| SecretService.SecretServiceHandle.FetchKey | crates/alknet-secret/src/service.rs:195-223 | the body the derive methods share: result and new state are those of `Fetch` for any label, whose keys `DirectMeaning` and `AnswerIsDirectIff` give |
| SecretService.SecretServiceHandle.DeriveEd25519 | crates/alknet-secret/src/service.rs:195-223 | result and new state are those of `Fetch` labelled Ed25519 |
| SecretService.SecretServiceHandle.DeriveEncryptionKey | crates/alknet-secret/src/service.rs:226-254 | result and new state are those of `Fetch` labelled AES-256-GCM |
| SecretService.SecretServiceHandle.DeriveEthereumKey | crates/alknet-secret/src/service.rs:261-300 | result and new state are those of `Fetch` labelled secp256k1, or unsupported without the feature |
| SecretService.SecretServiceHandle.DerivePassword | crates/alknet-secret/src/service.rs:302-321 | the first bytes of the directly derived private key, in the sense of `DirectMeaning`, at most the length asked for; refused when locked |
| SecretService.SecretServiceHandle.EncryptText | crates/alknet-secret/src/service.rs:335-363 | result and new state are those of `Encrypt` |
| SecretService.SecretServiceHandle.DecryptText | crates/alknet-secret/src/service.rs:366-390 | result and new state are those of `Decrypt` |
| SecretService.RunKeepsInv | crates/alknet-secret/src/service.rs:141-391 | in every run a locked service holds no seed, mnemonic or cached key, and every cached key was derived from the seed now held by the curve of its label |
| SecretService.LockedHoldsNothing | crates/alknet-secret/src/service.rs:181-187 | in every run a locked service has no mnemonic, no seed and nothing cached |
| SecretService.UnlockAnswers | crates/alknet-secret/src/service.rs:141-174 | when unlocking is refused as already unlocked, refused for its phrase, or succeeds; a refusal changes nothing |
| SecretService.SeedIsFromUnlock | crates/alknet-secret/src/service.rs:141-187 | in every run the phrase held is the last successful unlock's and the seed is stretched from it and its passphrase |
| SecretService.DirectMeaning | crates/alknet-secret/src/service.rs:195-300 | for every seed and path, the key is reached from the seed's master key child by child along the path's indices, on the label's curve; it fails exactly for a path that does not parse and a secp256k1 step that fails |
| SecretService.DirectOnIndices | crates/alknet-secret/src/service.rs:195-300 | the same for every list of indices through the path that spells it |
| SecretService.KeysFollowUnlock | crates/alknet-secret/src/service.rs:195-254 | after any run, keys on a path not shared with derive_ethereum_key are the children along the path of the master key of the last unlock's phrase and passphrase |
| SecretService.LabelMeaning | crates/alknet-secret/src/service.rs:201-223 | a key bears the label of the call unless an unexpired entry of the path bears another |
| SecretService.EthereumNeedsFeature | crates/alknet-secret/src/service.rs:261-300 | unsupported, with nothing changed, if and only if the feature is off |
| SecretService.CachedAnswersAreDirect | crates/alknet-secret/src/service.rs:195-254 | after any run, Ed25519 and encryption keys equal direct derivation on paths not asked of derive_ethereum_key since the last unlock; a locked service refuses |
| SecretService.AnswerIsDirectIff | crates/alknet-secret/src/service.rs:201-217 | an answer is the direct derivation if and only if the cache does not hold the path, unexpired, for the other curve |
| SecretService.EncryptionKeyUsed | crates/alknet-secret/src/service.rs:335-390 | in every reachable unlocked state encrypt seals and decrypt opens with the private key derived directly from the seed at the encryption path, by AES-256-GCM's curve unless an unexpired secp256k1 key is cached there, which needs the path to have been asked of derive_ethereum_key |
| SecretService.EncryptionPath | crates/alknet-secret/src/derivation.rs:42 | the encryption path has the four hardened components 74, 2, 0 and 0 |
| SecretService.EncryptsWithDirectKey | crates/alknet-secret/src/service.rs:335-390 | after any run: both are refused while locked, and otherwise use the directly derived encryption key when the path was not asked of derive_ethereum_key since the last unlock |
| SecretService.KeyVersionIsOnlyRecorded | crates/alknet-secret/src/encryption.rs:128-179 | the key version comes back as given and changes nothing else about encrypting or decrypting |
| SecretService.SharedPathAnswersWrongCurve | crates/alknet-secret/src/service.rs:201-207 | after derive_ethereum_key on a fresh path, derive_ed25519 returns that secp256k1 key and label |
| SecretService.RepeatGetsFirstAnswer | crates/alknet-secret/src/service.rs:201-223 | until it expires, any derive call on the path returns the first call's key and label |
| SecretService.PhraseRestoresService | crates/alknet-secret/src/service.rs:141-174 | the generated phrase restores the same state, no passphrase means the empty one, and a second unlock is refused |
| SecretService.DecryptsAcrossRuns | crates/alknet-secret/src/service.rs:335-390 | what one reachable state encrypted any later state with the same seed decrypts, across locks, expiries and evictions, if both use the same curve; they do if the encryption path was not asked of derive_ethereum_key |
| Derivation.ParseDerivationPath | crates/alknet-secret/src/derivation.rs:164-189 | the loop returns the indices of `ParsePath`, or fails with it |
| Derivation.DerivePathFromSeed | crates/alknet-secret/src/derivation.rs:112-129 | the loop derives along the parsed indices from the master key |
| Derivation.DeriveSecpPathFromSeed | crates/alknet-secret/src/ethereum.rs:148-161 | the secp256k1 loop, which stops at the first step that fails |
| Derivation.DerivationMeaning | crates/alknet-secret/src/derivation.rs:112-129 | for every seed and path either curve derives the key reached from the master key child by child, with the exact errors |
| Derivation.SecpFailsIff | crates/alknet-secret/src/ethereum.rs:148-161 | a secp256k1 derivation fails if and only if its master key or some child step does |
| Derivation.PathIff | crates/alknet-secret/src/derivation.rs:164-189 | exactly the slash-separated paths that begin with m and have one accepted component per index are accepted, with exactly those indices |
| Derivation.ComponentIff | crates/alknet-secret/src/derivation.rs:175-185 | a component is accepted if and only if it is a 32-bit number, any h, any quotes; hardened with either |
| Derivation.ParseRenderedPath | crates/alknet-secret/src/derivation.rs:164-189 | every list of 32-bit indices survives rendering and parsing, hardened from 2^31 on |
| Derivation.ParseExtended | crates/alknet-secret/src/derivation.rs:172-186 | appending a component to any path appends its index, or makes the path invalid if either is |
| Derivation.MarkersAgree | crates/alknet-secret/src/derivation.rs:175-185 | the two hardened markers mean the same |
| Derivation.DevicePathParses | crates/alknet-secret/src/derivation.rs:51-53 | a device path parses to the branch and its index, all four hardened if and only if the index is below 2^31 |
| Derivation.DevicePathInjective | crates/alknet-secret/src/derivation.rs:51-53 | different device indices parse differently |
| Derivation.DevicePathCollides | crates/alknet-secret/src/derivation.rs:181-182 | from 2^31 on the path means the same as one with an unhardened last component |
| Derivation.DeriveInStages | crates/alknet-secret/src/derivation.rs:116-119 | deriving along two stretches in turn is deriving along both |
| Derivation.DeriveExtendedPath | crates/alknet-secret/src/derivation.rs:112-129 | a path one component longer derives one more child |
| Socks5.ConnectSocks5 | crates/alknet-core/src/server/channel_proxy.rs:57-105 | result, bytes written and bytes left unread are those of `Connect`, whose meaning against any proxy `ClientConnectsIff` gives |
| Socks5.HandleConnection | crates/alknet-core/src/socks5/mod.rs:81-127 | result, opener calls, bytes written and what the tunnel starts with are those of `Serve`, for any client stream |
| Socks5.ReadAddressFrom | crates/alknet-core/src/socks5/protocol.rs:43-66 | the address read, the bytes consumed and the two ways to fail are those of `ReadAddress` |
| Socks5.ReadGreetingFrom | crates/alknet-core/src/socks5/protocol.rs:19-25 | the greeting read and the bytes consumed are those of `ReadGreeting` |
| Socks5.Negotiate | crates/alknet-core/src/socks5/mod.rs:86-97 | accepts or refuses as `Refusal` says and writes exactly the matching answer |
| Socks5.HandleRequest | crates/alknet-core/src/socks5/mod.rs:99-127 | result, opener calls and bytes written are those of `ServeRequest` |
| Socks5.BuildRequest | crates/alknet-core/src/server/channel_proxy.rs:66-70 | the request bytes, with the length byte truncated as in the cast |
| Socks5.AwaitReply | crates/alknet-core/src/server/channel_proxy.rs:74-105 | result and bytes consumed are those of `ReadReply` |
| Socks5.ReplyRoundTripIffFits | crates/alknet-core/src/socks5/protocol.rs:37-137 | the request reader returns a written reply's version, code, address and port and leaves the rest, if and only if a domain has at most 255 bytes |
| Socks5.ServerOpensOnlyForConnect | crates/alknet-core/src/socks5/mod.rs:86-126 | against any client the opener is called at most once, if and only if a no-auth greeting and a version-5 CONNECT came, with that request's domain or displayed IP and its port; the success reply is the output if and only if a tunnel starts |
| Socks5.ServerAnswers | crates/alknet-core/src/socks5/mod.rs:86-126 | for every input the result and all bytes written, in bytes: which inputs lead to which result, and its one answer, with code 7, 5 or 0 or none after the method answer |
| Socks5.ClientConnectsIff | crates/alknet-core/src/server/channel_proxy.rs:57-105 | against any proxy, in bytes: the request goes out if and only if the method is accepted, and when exactly the client is connected, rejected or sees a broken handshake |
| Socks5.PartOfRequest | crates/alknet-core/src/socks5/protocol.rs:37-76 | a message with its end missing reads as too short and as nothing else |
| Socks5.ServerDoesNotReadAhead | crates/alknet-core/src/socks5/mod.rs:86-119 | everything after the request is left for the tunnel |
| Socks5.ClientDoesNotReadAhead | crates/alknet-core/src/server/channel_proxy.rs:74-105 | everything after the reply is left for the tunnel |
| Socks5Handshake.HandshakeSafety | crates/alknet-core/src/server/channel_proxy.rs:57-105 | client and server in every interleaving and every fragmentation of their bytes: one opener call with exactly the address text and port, connected if and only if it succeeded and rejected otherwise, and tunnel bytes aligned from the first in both directions |
| Socks5Handshake.ClientIsConnect | crates/alknet-core/src/server/channel_proxy.rs:57-105 | the client of that system, fed any bytes in any pieces, ends with the result, output and unread rest of `ConnectSocks5` |
| Socks5Handshake.ServerIsServe | crates/alknet-core/src/socks5/mod.rs:81-127 | likewise its server and `HandleConnection` |
| Socks5Handshake.PartsOfMessages | crates/alknet-core/src/socks5/protocol.rs:115-137 | part of a greeting, request or success reply makes its reader wait; a refusal is told from its first four bytes |
| Socks5Handshake.EndIsHarmless | crates/alknet-core/src/socks5/mod.rs:120-126 | in no reachable state does an end wait on a stream the other has closed |
| Socks5Handshake.RunKeepsInv | crates/alknet-core/src/socks5/mod.rs:81-127 | every interleaving and fragmentation keeps the invariant relating both ends and the bytes not yet read |
| Socks5Handshake.HandshakeProgress | crates/alknet-core/src/socks5/mod.rs:86-126 | until the client has finished, bytes under way can be delivered or one end can make its next move |
| Socks5Handshake.HandshakeCompletes | crates/alknet-core/src/socks5/mod.rs:86-126 | from every such state the handshake can be completed, the opener's answer deciding the outcome |
| Socks5Handshake.StepsNeverGoBack | crates/alknet-core/src/socks5/mod.rs:86-126 | no step of either end undoes handshake progress |
| Socks5Handshake.OutcomeIsSettled | crates/alknet-core/src/socks5/mod.rs:109-126 | once the opener has answered, every continuation leads the client to that outcome only |
| Admission.ConnectionRateLimiter.Check | crates/alknet-core/src/server/rate_limit.rs:25-32 | admits when unlimited or under the limit |
| Admission.ConnectionRateLimiter.Connect | crates/alknet-core/src/server/rate_limit.rs:34-37 | one more for the address, nothing else changed |
| Admission.ConnectionRateLimiter.Disconnect | crates/alknet-core/src/server/rate_limit.rs:39-48 | one fewer for the address, the entry removed rather than zero |
| Admission.ServerHandler.constructor | crates/alknet-core/src/server/handler.rs:59-79 | allowed by the check, counted if and only if it has an address and is allowed |
| Admission.ServerHandler.Drop | crates/alknet-core/src/server/handler.rs:114-119 | uncounted under the same condition |
| Admission.DropUndoesConnect | crates/alknet-core/src/server/rate_limit.rs:34-48 | a drop undoes its constructor exactly |
| Admission.RunKeepsExact | crates/alknet-core/src/server/rate_limit.rs:25-48 | under any interleaving of constructors and drops the map holds exactly the live admitted handlers per address and never a zero |
| Admission.ZeroIsUnlimited | crates/alknet-core/src/server/rate_limit.rs:25-28 | with a limit of zero no connection is refused in any run |
| Admission.RefusedIffFull | crates/alknet-core/src/server/rate_limit.rs:25-32 | after any run a positive limit refuses a connection if and only if its address has that many live handlers |
| Admission.CountNeverExceeds | crates/alknet-core/src/server/handler.rs:59-62 | with at most k constructors in flight at once the count never exceeds max + k - 1 |
| Admission.OvershootReached | crates/alknet-core/src/server/handler.rs:59-62 | for every limit and k some run reaches that bound |
| Admission.AcceptLoopKeepsLimit | crates/alknet-core/src/server/serve.rs:702-762 | one constructor at a time, with drops anywhere, never exceeds the limit |
| AuthAttempts.ServerAuth.AuthPublickey | crates/alknet-core/src/server/handler.rs:145-202 | attempt, failures and identity are those of `Authenticate` |
| AuthAttempts.AttemptsClosedForm | crates/alknet-core/src/server/handler.rs:150-201 | an attempt is looked up if and only if fewer than max earlier keys were unknown, successes in between not counting, and accepted if and only if looked up and known |
| AuthAttempts.ZeroIsUnlimited | crates/alknet-core/src/server/rate_limit.rs:64-69 | with a limit of zero every key is looked up, and accepted if it is known |
| AuthAttempts.FailedLookupsCapped | crates/alknet-core/src/server/rate_limit.rs:64-73 | failed lookups are the unknown keys capped at max |
| AuthAttempts.ExhaustedIsFinal | crates/alknet-core/src/server/handler.rs:150-165 | then every attempt is rejected without lookup and the identity never changes |
| AuthAttempts.IdentityIsLastKnown | crates/alknet-core/src/server/handler.rs:176-186 | the identity is the last known key's among the answered attempts |
| Reconnect.ChannelManager.Reconnect | crates/alknet-core/src/client/channel_manager.rs:169-210 | the wait is the backoff of the count before, the count is reset on success and incremented on failure, and a success re-requests every forward once |
| Reconnect.ChannelManager.ReconnectRepeatedly | crates/alknet-core/src/client/channel_manager.rs:144-210 | for every outcome sequence the waits are the common schedule |
| Reconnect.ClientSessionWaits | crates/alknet-core/src/client/connect.rs:340-397 | counting on failure instead gives the same schedule |
| Reconnect.WaitIsCappedIff | crates/alknet-core/src/client/channel_manager.rs:234-245 | each wait is min(2^n, 30) seconds after n consecutive failures, always for n below 2^32, and exactly when the wrapped counter allows it beyond |
| Reconnect.ScheduleAt | crates/alknet-core/src/client/channel_manager.rs:169-210 | from any starting count, each wait depends only on the failures since the last success, wrapped at 2^32 |
| Reconnect.BackoffIsCapped | crates/alknet-core/src/client/connect.rs:483-493 | the table is min(2^n, 30) for every n |
| Reconnect.ChannelManager.RequestTcpipForward | crates/alknet-core/src/client/channel_manager.rs:109-122 | a granted request adds its forward, a refused one changes nothing |
| Reconnect.ChannelManager.CancelTcpipForward | crates/alknet-core/src/client/channel_manager.rs:124-137 | a granted cancel removes its forward, a refused one changes nothing |
| Reconnect.ChannelManager.ReRegisterForwards | crates/alknet-core/src/client/channel_manager.rs:212-231 | requests exactly the kept forwards, once each |
| Reconnect.ForwardKeptIff | crates/alknet-core/src/client/channel_manager.rs:109-137 | after any operations a forward is kept if and only if a granted request of it has not been followed by a granted cancel |
| Pending.PendingRequestMap.InsertCall | crates/alknet-core/src/call/pending.rs:31-39 | the call is pending under its id, replacing what was there |
| Pending.PendingRequestMap.InsertSubscribe | crates/alknet-core/src/call/pending.rs:41-49 | the subscription is pending under its id, replacing what was there |
| Pending.PendingRequestMap.ResolveCall | crates/alknet-core/src/call/pending.rs:51-58 | removes the entry whatever it is, and answers it if it is a call |
| Pending.PendingRequestMap.PushSubscribe | crates/alknet-core/src/call/pending.rs:60-65 | reaches the subscription of that id, if it is one and its channel has room |
| Pending.PendingRequestMap.Remove | crates/alknet-core/src/call/pending.rs:67-73 | removes the entry and says whether there was one |
| Pending.PendingRequestMap.SweepExpired | crates/alknet-core/src/call/pending.rs:87-102 | removes exactly the entries with deadline at or before now and returns the size decrease |
| Pending.RunPartitioned | crates/alknet-core/src/call/pending.rs:31-102 | in every run each registered waiter is in exactly one of pending, answered or dropped, and the three add up |
| Pending.CallLeavesOnce | crates/alknet-core/src/call/pending.rs:51-102 | a pending call is answered exactly by a resolve of its id, with its value, dropped exactly by a removal, a replacement or a sweep past its deadline, and never pushed to |
| Pending.SubscriptionStep | crates/alknet-core/src/call/pending.rs:51-102 | a subscription gets exactly what is pushed to its id with room, and is dropped exactly by a removal, a resolve, a replacement or a sweep past its deadline |
| Pending.AddedEntry | crates/alknet-core/src/call/pending.rs:31-49 | a new entry is a call or subscription with the deadline asked for, under a new waiter, other entries unchanged |
| Pending.CallIsAnswered | crates/alknet-core/src/call/pending.rs:31-58 | a call nothing else took is answered with the value of the first resolve of its id |
| Pending.SubscriptionReceives | crates/alknet-core/src/call/pending.rs:41-65 | while nothing removes it, a subscription receives exactly what is pushed to its id, in order |
| Pending.SettledIsFinal | crates/alknet-core/src/call/pending.rs:31-102 | once answered or dropped a waiter's answer never changes and nothing reaches it, even if its id is used again |
| ForwardSpec.ParsesBackIffColonFree | crates/alknet-core/src/client/forward.rs:34-106 | a specification is parsed back from its display if and only if its hosts contain no colon |
| ForwardSpec.AcceptedNormalises | crates/alknet-core/src/client/forward.rs:74-106 | displaying and parsing again whatever was accepted changes nothing |
| ForwardSpec.DisplayInjective | crates/alknet-core/src/client/forward.rs:74-86 | specifications with colon-free hosts, as all accepted ones are, that display alike are equal, kind included |
| ForwardSpec.AcceptedIff | crates/alknet-core/src/client/forward.rs:34-106 | exactly four colon-separated fields with two port numbers are accepted, and give exactly what they spell |
| ForwardSpec.DisplayMeaning | crates/alknet-core/src/client/forward.rs:74-86 | the display is the flag of the kind and the four fields |
| ForwardingPolicy.HostPatternMeaning | crates/alknet-core/src/config/forwarding.rs:47-61 | a pattern matches if and only if it equals the target or, split at its first star, encloses it |
| ForwardingPolicy.PolicyMeaning | crates/alknet-core/src/config/forwarding.rs:134-150 | a request is allowed if and only if the first rule that covers it allows, or none covers it and the default allows, with covering spelled out for targets, principals and transports |
| ForwardingPolicy.MatchesIff | crates/alknet-core/src/config/forwarding.rs:31-110 | a rule matches exactly the requests it covers: its target pattern, and its principals and transports where it names any |
| ForwardingPolicy.CheckRequest | crates/alknet-core/src/config/forwarding.rs:134-150 | the loop returns what `Check` says, whose meaning `PolicyMeaning` gives |
| ForwardingPolicy.LeastMatchDecides | crates/alknet-core/src/config/forwarding.rs:134-150 | the decision is that of the least-index matching rule, else the default |
| ForwardingPolicy.RuleMattersIff | crates/alknet-core/src/config/forwarding.rs:141-149 | deleting a rule changes a request's answer if and only if no earlier rule matches it, the rule does, and the rest of the policy answers otherwise |
| ForwardingPolicy.ShadowedRuleIsDead | crates/alknet-core/src/config/forwarding.rs:141-149 | deleting a rule whose requests are all matched earlier changes no decision |
| ForwardingPolicy.SwapNeighbours | crates/alknet-core/src/config/forwarding.rs:141-149 | neighbouring rules commute for a request they agree on or do not both match |
| Registry.OperationRegistry.Register | crates/alknet-core/src/call/registry.rs:31-33 | the latest registration of a name stands |
| Registry.RestrictedIffNobodyFails | crates/alknet-core/src/call/spec.rs:26-55 | has_restrictions is exactly failure of check for the empty identity |
| Registry.CheckAccessIff | crates/alknet-core/src/call/spec.rs:26-49 | exactly the identities with every required scope, one of the alternatives and the action on the resource pass |
| Registry.AnonymousIsNobody | crates/alknet-core/src/call/registry.rs:41-63 | an untrusted anonymous call reaches the handler if and only if one with the empty identity would |
| Registry.ReachesHandlerIff | crates/alknet-core/src/call/registry.rs:41-72 | a call reaches its handler, with its own input and context, if and only if the operation exists and the caller is trusted or entitled; the refusal says which failed |
| Registry.MoreRightsNeverForbid | crates/alknet-core/src/call/registry.rs:41-63 | adding scopes, resources or actions never turns a permitted call into a refused one |

## Left out

- Transports (TCP, TLS, ACME, iroh), NAPI bindings, the CLI, HTTP and DNS interfaces, stealth detection and logging: wrappers over libraries, or not logic.
- Cryptography, BIP39, base64 and zeroization: parameters or absent; that a decryption under a wrong key fails is not assumed, so nothing is claimed about it.
- The JSON text format, UTF-8 and the display of IP addresses: parameters.
- `connect_http_connect`, `copy_bidirectional` and `proxy_channel`: the HTTP proxy client and the byte copying after a tunnel is open.
- `CachedKey::last_accessed`: it is written and never read.
- Lock order and progress of `ChannelManager`: forward operations are atomic here; the code takes its two locks in both orders, so no claim about deadlock.
- Re-registration by `ClientSession`: it repeats a fixed list of forwards in order, which would only add an easy member.
- Certificate checks, CIDR arithmetic, `site_password_path`, `list_operations` and the registry builder.
- Socks5Handshake.HandshakeSafety: the address text has fewer than 256 bytes, and so for the other `Socks5Handshake` lemmas; the client only ever sends the text of an IP address, which is shorter.
- FrameReader.FrameFramedReader.AbandonRead: a dropped read may also stop right after the chunk that completes a frame, which allows more schedules than the runtime does.
- ForwardingPolicy.HostPatternMeaning: lengths are counted in characters, not UTF-8 bytes; prefix and suffix tests agree on both.
- The `salt` of `EncryptedData`, its base64 fields and `derive_password_string`: stored or encoded, never used in a decision.
- `ServerHandler` is modelled in two parts, its connection count in `Admission` and its authentication in `AuthAttempts`; its other channel callbacks are absent.
- RawFraming.RawFramingSession.SendEnvelope: how much of a frame a failing buffered write takes is chosen freely, where the library's buffer size would decide it.
