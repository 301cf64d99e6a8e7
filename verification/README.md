# NATProxy: a verified model of its protocol core

NATProxy carries traffic over WebRTC and ships its own DTLS 1.2. This project models the parts of
it whose correctness spans several functions or a whole run, in Dafny, and proves what they are
for. Where the Go code changes state in place the model is a class or a loop, proved equal to a
function on values; the properties are then proved of that function over every input or every run.

What is modelled, by module:

- `RecordLayer`, `InnerPlaintext`, `FragmentBuffer`, `Fragmentation`, `FragmentLimits`: record and handshake
  headers, the plaintext behind a connection identifier, the buffer that reassembles fragments, the cutting of
  messages into fragments, and what the size cap of the buffer means for them.
- `HandshakeCache`, `ConnWriter`, `RecordNumbers`, `ConnReader`, `TranscriptAgreement`: the cache of handshake
  messages and the transcripts pulled from it, numbering and packing of records, and the theorem over two
  peers and a network that loses, repeats and reorders: both sides pull the same transcript bytes, also
  where one side hashes a flight before sending it.
- `TranscriptOrder`: a transcript is the handshake in the order in which section 7.3 of RFC 5246 has it sent.
- `HandshakeFsm`, `HandshakeSteps`, `HandshakeTimers`, `ClientRun`, `ServerRun`, `Conversation`, `ResumedTalk`,
  `ServerProof`, `FinishedAgreement`, `SpokenRuns`: the flight state machine of one peer over every run, when exactly
  each parser goes on and a flight goes out again, that client and server get through to the end, alone and in
  conversation, what a finished server knows of its client, the acceptance of the Finished messages across both
  peers, and the two state machines together over the network.
- `ReliableRtp`, `RtpProgress`: reliable delivery over RTP with acknowledgements and retransmission, that what is
  delivered is read, and when copies go out.
- `ReplayFilter`: the 8192-bit anti-replay window, shifted word by word and bit by bit.
- `Ccm`, `CbcRecord`: CCM against section 2 of RFC 3610, and CBC records with the padding check by
  masks (section 6.2.3.2 of RFC 5246).
- `Extensions`, `ClientHello`: the ClientHello message and its extensions on the wire.
- `HelloRandomize`: truncation and shuffle of the ClientHello.
- `DnsTtl`, `DnsCache`, `DnsCacheHits`, `UseList`, `DnsBatch`, `DnsOutcomes`: the DNS wire walk, the cache of responses, and the
  batching of queries under every interleaving of callers and timers.
- `PaddedStream`, `DcStream`: the padded frame codec with decoys, and the stream over a message channel.
- `Words`, `Bytes`: words with their bitwise operators, byte strings and big-endian numbers.

Block ciphers, MACs, hashes and pseudo-random functions are arbitrary functions. Time is a natural
number, random draws are arbitrary inputs, and concurrency is a state machine over its steps.

Some results are exact conditions, proved in both directions, where the code falls short of an unconditional
promise.

- Reliable delivery is in order for every run of at most 65535 writes; with 65536, a late copy of frame 0
  is read twice (`ReliableRtp.BoundIsExact`).
- A frame whose acknowledgement has arrived can still go out exactly when a copy was handed over before and
  is not out yet; `ReliableRtp.LateSendHappens` gives a run (`ReliableRtp.LateSendsExactly`).
- A finished server is certain to have been shown matching verify data exactly when it finished in flight 4b;
  flight 4 looks at the type of the client's Finished only (`ServerProof.ShownExactly`).
- Decryption of a CBC record below 2^31 bytes can panic exactly for records with a connection identifier and for
  texts shorter than the MAC and the longest padding together, and never for a record that matching keys
  encrypted (`CbcRecord.PanicsExactly`, `CbcRecord.PanicLengthIs`, `CbcRecord.PanicWitness`,
  `CbcRecord.EncryptedNeverPanics`).
- The additional data of CCM is formatted as RFC 3610 says up to 0xfeff bytes; above that the code writes
  the marker 0xfe 0xff where the standard has 0xff 0xfe or 0xff 0xff (`Ccm.DataBlocksAsRfc`).
- The padding check looks at bit 31 of the length difference, so correct padding is recognised exactly
  when that bit is clear (`CbcRecord.ExaminePadding`, `CbcRecord.RecordRoundTrip`, `CbcRecord.LongPayloadRefused`).
- A record header decodes to itself exactly when its length is zero, since decoding does not read the length
  (`RecordLayer.RecordHeaderRoundTrip`).
- An inner plaintext reads back exactly when it has content and a real type other than zero
  (`InnerPlaintext.InnerRoundTrip`).
- A padded write reads back exactly when it has at most 65535 bytes (`PaddedStream.WriteBoundIsExact`).
- A burst may fail unnoticed; what is written behind the part that was taken reads back exactly when that part
  ends with a whole frame (`PaddedStream.BurstCutExactly`).
- A stream over a message channel gives all bytes exactly when every message fits 65536 bytes
  (`DcStream.StreamOfMessages`).
- A fragmented message can come through exactly when its body and two headers are below 2,000,000 bytes, and
  does whatever is repeated exactly when it also has one fragment only: copies can fill the buffer and keep a
  missing fragment out (`FragmentLimits.CanComeOutExactly`, `FragmentLimits.AlwaysExactly`,
  `FragmentLimits.LargeMessageLost`, `FragmentLimits.RepeatsLoseMessage`).

The comment on `hmacCID` points to section 5.1 of RFC 9146, which authenticates the plaintext once; the code
authenticates it twice. The comment on `parseDNSTTL` speaks of a fallback on parse errors; the code falls back
only when the questions cannot be skipped, and otherwise keeps what it found before the first incomplete
record. The model follows the code in both.

Run `dafny verify dfyconfig.toml` to check the project.

## Model

| member | source | states |
|---|---|---|
| `RecordLayer.DecodeRecordHeader` | golib/replace/dtls/pkg/protocol/recordlayer/header.go:54-81 | a record header decodes into an empty one exactly when 13 bytes are there and the version is DTLS 1.0 or 1.2; its length and connection identifier stay empty |
| `RecordLayer.DecodeRecordHeaderInto` | golib/replace/dtls/pkg/protocol/recordlayer/header.go:54-81 | likewise for a header that holds a connection identifier, whose size a record of that type must have room for |
| `RecordLayer.HeaderFieldsRead` | golib/replace/dtls/pkg/protocol/recordlayer/header.go:34-81 | of every header within its widths all fields but the length read back, whatever follows |
| `RecordLayer.RecordHeaderRoundTrip` | golib/replace/dtls/pkg/protocol/recordlayer/header.go:34-81 | a header decodes to itself if and only if its length is zero |
| `InnerPlaintext.UnmarshalInner` | golib/replace/dtls/pkg/protocol/recordlayer/inner_plaintext.go:31-49 | the backward loop finds the last byte that is not zero, fails when it is the first, and is out of range when there is none |
| `InnerPlaintext.InnerRoundTrip` | golib/replace/dtls/pkg/protocol/recordlayer/inner_plaintext.go:21-49 | a plaintext reads back if and only if it has content and its real type is not zero |
| `RecordLayer.DecodeHeader` | golib/replace/dtls/pkg/protocol/handshake/header.go:43-55 | a handshake header decodes exactly when 12 bytes are there, with fields within their widths |
| `RecordLayer.HeaderRoundTrip` | golib/replace/dtls/pkg/protocol/handshake/header.go:30-55 | every handshake header within its widths decodes to itself, whatever follows |
| `RecordLayer.UnpackDatagram` | golib/replace/dtls/pkg/protocol/recordlayer/recordlayer.go:98-116 | the loop cuts a datagram by its length fields, or rejects it |
| `RecordLayer.UnpackConcat` | golib/replace/dtls/pkg/protocol/recordlayer/recordlayer.go:98-116 | unpacking records packed one after another gives those records back |
| `FragmentBuffer.FragmentStore.constructor` | golib/replace/dtls/fragment_buffer.go:28-31 | the buffer starts empty and expects message 0 |
| `FragmentBuffer.FragmentStore.TotalSize` | golib/replace/dtls/fragment_buffer.go:33-42 | the nested loops add up exactly the data held |
| `FragmentBuffer.FragmentStore.Push` | golib/replace/dtls/fragment_buffer.go:47-89 | pushing arbitrary bytes: the size cap, header errors, records that are not handshake, and what is filed |
| `FragmentBuffer.FragmentStore.PushMessages` | golib/replace/dtls/fragment_buffer.go:64-86 | the loop files every message of one record; only the first keeps that record's header |
| `FragmentBuffer.FragmentStore.AppendMessage` | golib/replace/dtls/fragment_buffer.go:97-121 | the recursive search follows the first fragment at each offset and ends, because offsets grow |
| `FragmentBuffer.FragmentStore.Pop` | golib/replace/dtls/fragment_buffer.go:91-140 | pop removes the current message exactly when its chain is complete, with the unfragmented header |
| `FragmentBuffer.PushedKeeps` | golib/replace/dtls/fragment_buffer.go:47-89 | for every byte string pushed, fragments stay filed under their own number and the size below the cap |
| `FragmentBuffer.PoppedKeeps` | golib/replace/dtls/fragment_buffer.go:91-140 | a popped message carries the current number, which moves on by one modulo 2^16 |
| `FragmentBuffer.ReassemblyRuns` | golib/replace/dtls/fragment_buffer.go:33-140 | over every sequence of pushes of arbitrary bytes and pops, the data held stays below 2,000,000 bytes and the popped messages carry consecutive numbers from 0 modulo 2^16 |
| `Fragmentation.SplitBytes` | golib/replace/dtls/util.go:30-43 | the loop cuts into consecutive pieces |
| `Fragmentation.PiecesConcat` | golib/replace/dtls/util.go:30-43 | the pieces concatenate to the input and each has between 1 and n bytes |
| `Fragmentation.FragmentHandshake` | golib/replace/dtls/conn.go:687-726 | the loop makes the fragments at the cut offsets, one empty fragment for an empty message |
| `Fragmentation.PopIsExact` | golib/replace/dtls/fragment_buffer.go:91-140 | with fragments of one message only, in any order and number, pop gives the unfragmented message if and only if all are there |
| `Fragmentation.PushFragmentRecord` | golib/replace/dtls/fragment_buffer.go:47-89 | pushing one fragment record files exactly that fragment behind those already there |
| `Fragmentation.FragmentRoundTrip` | golib/replace/dtls/fragment_buffer.go:47-140 | for every list of records carrying fragments of one message, in any order and with any repetitions, the unfragmented message pops if and only if every fragment is among those the size cap let in, and nothing pops before |
| `FragmentLimits.WithoutRepeats` | golib/replace/dtls/fragment_buffer.go:47-140 | when no fragment is repeated, the message pops if and only if every fragment arrived and body and two headers are below 2,000,000 bytes |
| `FragmentLimits.CanComeOutExactly` | golib/replace/dtls/fragment_buffer.go:47-50 | for every fragment size some list of fragment records pops the message if and only if body and two headers are below 2,000,000 bytes |
| `FragmentLimits.AlwaysExactly` | golib/replace/dtls/fragment_buffer.go:47-50 | every list in which all fragments arrive pops the message if and only if it has one fragment and fits |
| `FragmentLimits.LargeMessageLost` | golib/replace/dtls/fragment_buffer.go:47-50 | a body of 2,000,000 bytes in one record arrives and does not pop |
| `FragmentLimits.RepeatsLoseMessage` | golib/replace/dtls/fragment_buffer.go:47-50 | copies of the second of two fragments fill the buffer, the first is refused, and a message that fits is lost |
| `HandshakeCache.Cache.Push` | golib/replace/dtls/handshake_cache.go:37-48 | the item is appended |
| `HandshakeCache.Cache.Pull` | golib/replace/dtls/handshake_cache.go:53-72 | the nested loops find the best match of each rule |
| `HandshakeCache.BestIsBest` | golib/replace/dtls/handshake_cache.go:53-72 | a rule finds nothing exactly when nothing matches, otherwise the match with the highest number, the first pushed among equals |
| `HandshakeCache.Cache.Collect` | golib/replace/dtls/handshake_cache.go:85-103 | the table with one slot per message type, or the missing mandatory message |
| `HandshakeCache.OwnSlots` | golib/replace/dtls/handshake_cache.go:85-103 | rules for different message types, as every call has, never share a slot |
| `HandshakeCache.Cache.FullPullMap` | golib/replace/dtls/handshake_cache.go:77-136 | the two loops hand over messages exactly when all mandatory ones are there, parse and leave no gap |
| `HandshakeCache.NoGap` | golib/replace/dtls/handshake_cache.go:104-136 | the messages handed over carry consecutive numbers from the start, in rule order |
| `HandshakeCache.Cache.PullAndMerge` | golib/replace/dtls/handshake_cache.go:139-149 | the transcript of the rules |
| `HandshakeCache.Cache.ComputeSessionHash` | golib/replace/dtls/handshake_cache.go:153-185 | the hash of the eight session messages followed by the additional bytes |
| `HandshakeCache.TranscriptAgrees` | golib/replace/dtls/handshake_cache.go:139-149 | caches holding the same messages give the same transcript, whatever the order and duplicates |
| `HandshakeCache.FlightAhead` | golib/replace/dtls/flight5handler.go:174-285 | a transcript followed by a flight not sent yet is the transcript once the flight is sent, for any rules the flight fills in order |
| `HandshakeCache.LastFlightAhead` | golib/replace/dtls/flight5handler.go:262-285 | so the client's Finished covers its own last flight, with or without a certificate |
| `TranscriptOrder.OrderIsKept` | golib/replace/dtls/handshake_cache.go:139-149 | messages cached in the order the rules ask for, each at most once, give their concatenation as transcript, whatever optional ones are missing |
| `TranscriptOrder.SessionOrder` | golib/replace/dtls/handshake_cache.go:153-185 | of a cache filled with ClientHello to ClientKeyExchange in the order of section 7.3 of RFC 5246 the session hash is the hash of exactly those bytes in that order and the additional ones |
| `TranscriptOrder.FinishedOrder` | golib/replace/dtls/flight6handler.go:57-76 | the server's Finished covers the bytes of the handshake up to the client's Finished, in the order sent |
| `TranscriptOrder.ClientFinishedOrder` | golib/replace/dtls/flight5handler.go:262-285 | the client's Finished covers them up to CertificateVerify |
| `TranscriptOrder.ResumedTranscripts` | golib/replace/dtls/flight5bhandler.go:57-69 | on resumption the server's Finished covers the two hellos and the client's the server's Finished as well, in the order sent |
| `TranscriptOrder.AfterCookieExchange` | golib/replace/dtls/handshake_cache.go:53-72 | a first hello and the request to verify it, cached before, leave all of that as it is |
| `HandshakeSteps.PullExactly` | golib/replace/dtls/handshake_cache.go:77-136 | a pull hands over messages exactly when the mandatory ones are there, those there parse, and they are numbered from the start without a gap |
| `ConnWriter.CompactRawPackets` | golib/replace/dtls/conn.go:524-544 | the loop is the packing function |
| `ConnWriter.CompactIsPacking` | golib/replace/dtls/conn.go:524-544 | packing keeps order and concatenation, splits no record, and every datagram is one record or shorter than the MTU, and could not have taken the next record |
| `ConnWriter.Writer.ProcessPacket` | golib/replace/dtls/conn.go:546-609 | a record draws the next number of its epoch, or fails above 2^48-1 |
| `ConnWriter.Writer.ProcessHandshakePacket` | golib/replace/dtls/conn.go:612-685 | each fragment draws its own number and keeps its bytes |
| `ConnWriter.Writer.WritePackets` | golib/replace/dtls/conn.go:472-522 | messages are cached unfragmented, then numbered, fragmented and packed |
| `ConnWriter.WriteAllOrdered` | golib/replace/dtls/conn.go:472-522 | the records of one call carry their contents, with increasing numbers drawn from the counters |
| `ConnWriter.RunNumbering` | golib/replace/dtls/conn.go:546-685 | over every run of calls, records of one epoch carry strictly increasing numbers, none repeated and none above 2^48-1 |
| `RecordNumbers.WriteAllExactly` | golib/replace/dtls/conn.go:472-685 | a call writes its records if and only if every epoch it uses has enough of its 2^48 numbers left, and then exactly those numbers are gone |
| `ConnWriter.RetransmissionRepeats` | golib/replace/dtls/handshaker.go:266-277 | a flight written again has the same contents record by record, under new record numbers |
| `ConnReader.Reader.HandleRecord` | golib/replace/dtls/conn.go:954-975 | one incoming record: pushed, and every message that became complete moved to the cache in order |
| `TranscriptAgreement.DrainedKeeps` | golib/replace/dtls/conn.go:964-972 | what the receiver caches are the unfragmented messages of the sender, in order |
| `TranscriptAgreement.RunGood` | golib/replace/dtls/conn.go:472-522 | in every run of two peers under loss, repetition, reordering and retransmission, each cache holds exactly a prefix of the other side's messages, byte for byte as their sender cached them |
| `TranscriptAgreement.SameTranscript` | golib/replace/dtls/handshake_cache.go:139-149 | in every run the transcript any peer pulls equals the one any peer pulls later, for rules whose messages both have |
| `TranscriptAgreement.SameSessionHash` | golib/replace/dtls/handshake_cache.go:153-185 | likewise for the session hash, for every hash function and further bytes |
| `TranscriptAgreement.HeldUpTo` | golib/replace/dtls/conn.go:964-972 | in every state a peer that has a message has all earlier messages of its sender |
| `TranscriptAgreement.FlightTranscriptAgrees` | golib/replace/dtls/flight5handler.go:174-285 | over every run, the transcript a client pulls and extends by the flight it is about to send is the one the server pulls once the flight has come through |
| `TranscriptAgreement.SignedTextAgrees` | golib/replace/dtls/flight5handler.go:199-208 | over every run, what CertificateVerify signs before anything is sent is what the server checks the signature over |
| `TranscriptAgreement.SessionHashAgrees` | golib/replace/dtls/flight5handler.go:323-332 | over every run, the client's session hash with its unsent messages equals the server's over its cache, for every hash function |
| `HandshakeFsm.Handshaker.constructor` | golib/replace/dtls/handshaker.go:171-183 | a fresh client starts in flight 1 and a fresh server in flight 0 |
| `HandshakeFsm.Handshaker.PrepareFlight` | golib/replace/dtls/handshaker.go:218-264 | the generator runs, messages are numbered by the loop, flight 2 starts again at 0 |
| `HandshakeFsm.Handshaker.SendFlight` | golib/replace/dtls/handshaker.go:266-277 | the last flights 5b and 6 finish by being sent, others wait |
| `HandshakeFsm.Handshaker.Wait` | golib/replace/dtls/handshaker.go:279-350 | one event while waiting: retransmission, parsing, timer with doubling, cancellation |
| `HandshakeFsm.Handshaker.FinishHandshake` | golib/replace/dtls/handshaker.go:352-364 | a finished server answers with its flight again, a finished client stays |
| `HandshakeFsm.ParseStaysOnSide` | golib/replace/dtls/flighthandler.go:24-47 | every parser names only flights of its own side and never an earlier one |
| `HandshakeSteps.Flight0Exactly` | golib/replace/dtls/flight0handler.go:18-149 | flight 0 stays without a parsed first hello; otherwise it resumes exactly for a stored session, asks for a cookie unless verification is off, or fails, and a session brings its identifier and secret |
| `HandshakeSteps.Flight2Exactly` | golib/replace/dtls/flight2handler.go:16-52 | flight 2 goes on exactly when the second hello returns the cookie, fails on another one, stays without one, and answers the first hello again as flight 0 does |
| `HandshakeSteps.RequestObeyed` | golib/replace/dtls/flight3handler.go:21-47 | a HelloVerifyRequest sends the client to flight 3 with exactly the request's cookie |
| `HandshakeSteps.ServerFlightExactly` | golib/replace/dtls/flight3handler.go:137-173 | behind the server's hello the client goes on to flight 5 exactly when the rest of the server's flight is whole, from the next number on, and the keys are fine; it stays when it is not whole |
| `HandshakeSteps.Flight3Exactly` | golib/replace/dtls/flight3handler.go:21-173 | the same for the whole parser, where a hello that is not fine ends the handshake |
| `HandshakeSteps.Flight4Exactly` | golib/replace/dtls/flight4handler.go:27-258 | flight 4 goes on exactly with a whole and fine client flight, the Finished behind it and the authentication asked for; the master secret is the one of the key exchange |
| `HandshakeSteps.LastExactly` | golib/replace/dtls/flight6handler.go:16-37 | the parsers of flights 5b and 6 name their own flight exactly when the Finished read last is there again |
| `HandshakeSteps.ClientHoldsCookie` | golib/replace/dtls/flight3handler.go:21-47 | in every run a client in flight 3 holds the cookie of a request it was shown |
| `HandshakeSteps.ClientNeedsFlight` | golib/replace/dtls/flight3handler.go:137-173 | in every run a client in flight 5 was shown a whole server flight, in sequence, with keys that are fine |
| `HandshakeSteps.ServerNeedsFlight` | golib/replace/dtls/flight4handler.go:27-258 | in every run a server in flight 6 was shown a whole client flight with everything about it fine |
| `HandshakeSteps.ResumingServerUsesSession` | golib/replace/dtls/flight0handler.go:18-149 | in every run a server in flight 4b uses the identifier and the secret stored for the session of a hello it was shown |
| `ClientRun.FullHandshakeFinishes` | golib/replace/dtls/handshaker.go:185-350 | for every configuration and all views of that kind, a request to verify the hello, a whole server flight and a matching Finished take a fresh client to flight 3 with exactly the request's cookie, to flight 5 and to the end |
| `ClientRun.ClientFinishes` | golib/replace/dtls/handshaker.go:185-350 | under every configuration, for every server whose messages the client parses and every cookie and secret, some run of the client does so |
| `ClientRun.DirectHandshakeFinishes` | golib/replace/dtls/handshaker.go:185-350 | likewise without a request to verify the hello |
| `ServerRun.FullHandshakeFinishes` | golib/replace/dtls/handshaker.go:185-350 | for every configuration that verifies hellos and all views of that kind, a hello, the hello again with its cookie, and a whole client flight take a fresh server to the end in flight 6; its request is number 0, the others are numbered on from 1, its Finished last |
| `ServerRun.DirectHandshakeFinishes` | golib/replace/dtls/handshaker.go:185-350 | likewise for every configuration that does not |
| `Conversation.BothFinish` | golib/replace/dtls/handshaker.go:185-350 | for every full handshake in the order of section 7.3 of RFC 5246, with any choice of optional messages and any bodies, with or without a cookie exchange: the two machines, each shown what has been said, both finish, number their messages exactly as they are numbered in it, and compute exactly the verify data in it |
| `ResumedTalk.ClientResumes` | golib/replace/dtls/flight3handler.go:176-221 | for every configuration, a hello for the session asked for and the matching Finished take a fresh client to the end in flight 5b |
| `ResumedTalk.ServerResumes` | golib/replace/dtls/flight4bhandler.go:18-54 | for every configuration, a hello for a stored session and the matching Finished take a fresh server to the end in flight 4b |
| `ResumedTalk.BothResume` | golib/replace/dtls/handshaker.go:185-350 | for every resumed handshake in that order, both machines finish, with its numbers and its verify data |
| `HandshakeFsm.RunFlights` | golib/replace/dtls/handshaker.go:185-212 | in every run the client is in 1, 3, 5, 5b and the server in 0, 2, 4, 4b, 6; finished only in 5, 5b or 4b, 6; nobody waits in 5b or 6 or retransmits flight 2 on a timer |
| `HandshakeFsm.RankGrows` | golib/replace/dtls/flight.go:59-71 | along every run the rank of the flight never decreases |
| `HandshakeFsm.ServerMustProve` | golib/replace/dtls/flight3handler.go:176-221 | the parsers that let a client finish compared received and expected verify data and found them equal |
| `HandshakeFsm.ClientFinishesProved` | golib/replace/dtls/flight5handler.go:20-72 | in every run a client that has finished was shown verify data equal to what it expected |
| `HandshakeFsm.ClientMustProve` | golib/replace/dtls/flight4bhandler.go:18-54 | flight 4b goes on only with matching verify data |
| `HandshakeFsm.ResumedServerFinishesProved` | golib/replace/dtls/flight4bhandler.go:18-54 | in every run a server finished by resumption was shown matching verify data |
| `ServerProof.VerifyDataIgnored` | golib/replace/dtls/flight4handler.go:202-213 | any other cache that yields a Finished in the same place leads flight 4 to the same state and flight, whatever verify data it carries |
| `ServerProof.FinishedUnshown` | golib/replace/dtls/flight4handler.go:202-258 | under every configuration, for every client whose messages the server parses, some run finishes in flight 6 on a Finished that differs from the expected verify data, with no match shown before |
| `ServerProof.HellosSpeak` | golib/replace/dtls/pkg/protocol/handshake/message_client_hello.go:69-142 | two well-formed hellos and a key exchange that is read make such a client |
| `ServerProof.ShownExactly` | golib/replace/dtls/flight4handler.go:202-258 | under every configuration and parser that a client can satisfy, a finished server is certain to have been shown matching verify data if and only if it finished in flight 4b |
| `HandshakeFsm.CookieMustReturn` | golib/replace/dtls/flight2handler.go:16-52 | flight 4 is reached from flights 0 and 2 only with the returned cookie, unless verification is off |
| `HandshakeFsm.CookieBeforeFullHandshake` | golib/replace/dtls/flight0handler.go:18-149 | in every run with verification on, a server in flight 4 or 6 was returned its cookie |
| `HandshakeFsm.OnlyFromHello` | golib/replace/dtls/flight4handler.go:27-258 | flight 4 follows only flights 0 and 2, flight 6 only flight 4 |
| `HandshakeFsm.RunNumbers` | golib/replace/dtls/handshaker.go:245-257 | over every run messages are numbered consecutively from 0, except that each HelloVerifyRequest is 0 and the next message 1 |
| `HandshakeFsm.BackoffDoubles` | golib/replace/dtls/handshaker.go:328-343 | after k expiries the wait is 2^k times as long, at most a minute, and the flight and its numbers are unchanged |
| `HandshakeTimers.WaitIs` | golib/replace/dtls/handshaker.go:279-350 | in every run the wait is the configured one doubled for each expiry since the last message, at most a minute, and the configured one again after a message |
| `HandshakeTimers.WaitingSendsAgain` | golib/replace/dtls/handshaker.go:279-343 | in every run a waiting peer sends the same flight with the same numbers again when the other side repeats its own, and when the timer expires unless it is flight 2 |
| `HandshakeTimers.FinishedAnswers` | golib/replace/dtls/handshaker.go:352-364 | in every run a finished client stays as it is, and a finished server answers every message with its last flight, the same as before |
| `HandshakeTimers.CancelledEnds` | golib/replace/dtls/handshaker.go:344-364 | in every run cancellation ends a handshake for good |
| `FinishedAgreement.SettledTranscript` | golib/replace/dtls/conn.go:964-972 | peers that hold each other's last message under the rules pull the same transcript |
| `FinishedAgreement.ServerFinishedAccepted` | golib/replace/dtls/flight6handler.go:57-76 | over every run of both peers the client accepts exactly the verify data the server computed from its own cache |
| `FinishedAgreement.FullHandshakeAgrees` | golib/replace/dtls/flight5handler.go:325-335 | with the extended master secret the same holds without assuming equal masters: each side derives its own from its own cache |
| `FinishedAgreement.ClientVerifyExpected` | golib/replace/dtls/flight5handler.go:262-285 | over every run the verify data the client computes before sending flight 5 is what the server in flight 4 has to expect |
| `FinishedAgreement.ResumingServerAccepted` | golib/replace/dtls/flight4bhandler.go:110-126 | on resumption the client accepts exactly the verify data the server computed before sending its hello |
| `FinishedAgreement.ClientFinishedAccepted` | golib/replace/dtls/flight5bhandler.go:57-69 | on resumption the server accepts exactly the verify data the client computed from its own cache |
| `SpokenRuns.FinishedIsLast` | golib/replace/dtls/handshaker.go:218-264 | in every run of either peer its Finished is the last message it prepares |
| `SpokenRuns.NothingAfterFinished` | golib/replace/dtls/handshaker.go:245-257 | what a state machine has sent ends with its Finished, once that is sent |
| `SpokenRuns.FinishedSettles` | golib/replace/dtls/conn.go:964-972 | so a peer that holds the other's Finished and takes the next number for its own has everything the rules ask for, on both sides |
| `SpokenRuns.FullHandshakeSpoken` | golib/replace/dtls/flight6handler.go:57-76 | two state machines over the network, with the extended master secret: the client accepts exactly the verify data the server computed |
| `SpokenRuns.ResumedHandshakeSpoken` | golib/replace/dtls/flight5bhandler.go:57-69 | likewise for the server of a resumed handshake |
| `ReliableRtp.FrameReads` | golib/webrtc/media_reliable.go:72-75 | number, flag and payload of a frame read back |
| `ReliableRtp.Endpoint.Write` | golib/webrtc/media_reliable.go:66-86 | a write takes the next 16-bit number and keeps its frame until acknowledged |
| `ReliableRtp.Endpoint.ReadSome` | golib/webrtc/media_reliable.go:88-118 | a read serves the rest of a packet, or the next packet in order |
| `ReliableRtp.Endpoint.Receive` | golib/webrtc/media_reliable.go:130-182 | data is stored while the window has room and always acknowledged; an acknowledgement ends retransmission; the new state is the one RtpProgress and ReliableDelivery are proved of |
| `ReliableRtp.Endpoint.Tick` | golib/webrtc/media_reliable.go:184-215 | one pass over the unacknowledged frames, in any order: those due are handed over to be sent again, and dropped after ten retries |
| `ReliableRtp.RunKeeps` | golib/webrtc/media_reliable.go:66-215 | the invariant over both endpoints and the network holds in every run |
| `ReliableRtp.ReliableDelivery` | golib/webrtc/media_reliable.go:66-215 | in every run of at most 65535 writes the bytes read are a prefix of the bytes written, for any read sizes, and no frame goes out more than eleven times |
| `ReliableRtp.AcknowledgedNotScheduled` | golib/webrtc/media_reliable.go:169-215 | once the acknowledgement of a frame has arrived, no later step of any such run hands the frame over again |
| `ReliableRtp.LateSendsExactly` | golib/webrtc/media_reliable.go:207-209 | an acknowledged frame can still go out if and only if a copy of it was handed over before and is not out yet |
| `ReliableRtp.LateSendHappens` | golib/webrtc/media_reliable.go:169-215 | a run in which that happens: the timer fires while the acknowledgement is on its way |
| `ReliableRtp.BoundIsExact` | golib/webrtc/media_reliable.go:66-118 | in-order delivery for every run of up to n writes holds if and only if n is at most 65535 |
| `RtpProgress.CopyIsAcknowledged` | golib/webrtc/media_reliable.go:151-167 | every delivery of a copy, first or retransmitted, with room or without, hands over exactly the acknowledgement of its number |
| `RtpProgress.DeliveredIsRead` | golib/webrtc/media_reliable.go:88-182 | in every run of at most 65535 writes: if of each of the first n frames some copy, first or retransmitted, was delivered while fewer than 256 packets were buffered, then every continuation with enough reads has read the first n payloads in order |
| `RtpProgress.CopiesAreSpaced` | golib/webrtc/media_reliable.go:184-215 | in every run copy number r of a frame is handed over at least 100 * (2^r - 1) milliseconds after its write |
| `RtpProgress.OneTick` | golib/webrtc/media_reliable.go:184-215 | one tick hands a frame over again exactly when it is due, and drops it exactly when it is due after the tenth copy |
| `RtpProgress.TenCopies` | golib/webrtc/media_reliable.go:184-215 | a frame never acknowledged is handed over again at each of the first ten ticks that are late enough |
| `RtpProgress.GivenUp` | golib/webrtc/media_reliable.go:184-215 | and given up at the eleventh |
| `ReplayFilter.AdvancedIsOneShift` | golib/webrtc/replay.go:67-95 | the word shift followed by the bit shift is one shift of the 8192-bit set |
| `ReplayFilter.Filter.SetBit` | golib/webrtc/replay.go:55-59 | afterwards the bit at the offset is set and every other of the 8192 bits is as before |
| `Words.MaskTest` | golib/webrtc/replay.go:64-64 | a word masked with 1 << j differs from zero exactly when its bit j is set |
| `ReplayFilter.Filter.GetBit` | golib/webrtc/replay.go:61-65 | the mask test says whether the bit is set, and in a valid filter whether the number that far behind the highest was accepted |
| `ReplayFilter.Filter.AdvanceWindow` | golib/webrtc/replay.go:67-95 | the in-place loops compute the shifted window, cleared when the shift exceeds it |
| `ReplayFilter.Filter.Check` | golib/webrtc/replay.go:22-53 | the verdict and the new state are those of a set of accepted numbers |
| `ReplayFilter.RunFromHistory` | golib/webrtc/replay.go:22-95 | over every sequence of calls the set is exactly the numbers let through |
| `ReplayFilter.VerdictFromHistory` | golib/webrtc/replay.go:22-53 | a call is let through exactly when its number was never let through before and is above the highest or less than 8192 behind it |
| `Ccm.NewCcm` | golib/replace/dtls/pkg/crypto/ccm/ccm.go:57-71 | accepted exactly for the tag sizes 4, 6, ..., 16 and nonce sizes 7 to 13 |
| `Ccm.MaxLengthIs` | golib/replace/dtls/pkg/crypto/ccm/ccm.go:77-87 | the 64-bit computation gives the smaller of 256^L - 1 and the largest int less the tag, for ints of 64 and of 32 bits |
| `Words.XorBit` | golib/replace/dtls/pkg/crypto/ccm/ccm.go:104-106 | the exclusive or of two words, defined by halving, is the bitwise one |
| `Words.AndNotBit` | golib/replace/dtls/pkg/crypto/ciphersuite/ciphersuite.go:96-96 | likewise for clearing bits |
| `Ccm.CbcRound` | golib/replace/dtls/pkg/crypto/ccm/ccm.go:103-108 | one CBC-MAC step in place |
| `Ccm.CbcData` | golib/replace/dtls/pkg/crypto/ccm/ccm.go:110-120 | the loop chains all blocks of the data, the last filled with zeros |
| `Ccm.FlagsAsRfc` | golib/replace/dtls/pkg/crypto/ccm/ccm.go:127-131 | the flags assembled by bitwise or are those of section 2.2 of RFC 3610 |
| `Ccm.FirstBlock` | golib/replace/dtls/pkg/crypto/ccm/ccm.go:125-139 | the first block in place is B_0 of section 2.2 |
| `Ccm.TagAdata` | golib/replace/dtls/pkg/crypto/ccm/ccm.go:142-162 | the additional data is chained with its length in front |
| `Ccm.Tag` | golib/replace/dtls/pkg/crypto/ccm/ccm.go:124-169 | the tag is CBC-MAC over B_0, the additional data and the payload, or the nonce or length error |
| `Ccm.DataBlocksAsRfc` | golib/replace/dtls/pkg/crypto/ccm/ccm.go:143-158 | the blocks of the additional data are those of RFC 3610 if and only if it has at most 0xfeff bytes; above, the marker is 0xfe 0xff and the length that follows is the one of the standard |
| `Ccm.CounterNeverCarries` | golib/replace/dtls/pkg/crypto/ccm/ccm.go:203-213 | incrementing all 128 bits k times gives counter block k+1, below 256^L |
| `Ccm.Seal` | golib/replace/dtls/pkg/crypto/ccm/ccm.go:196-217 | appends the sealed text, or panics exactly on a bad nonce size or an overlong plaintext |
| `Ccm.Open` | golib/replace/dtls/pkg/crypto/ccm/ccm.go:225-261 | the checks, their order, and the plaintext or the error |
| `Ccm.SealIsRfc` | golib/replace/dtls/pkg/crypto/ccm/ccm.go:196-217 | up to 0xfeff bytes of additional data, every sealed byte is the one of sections 2.2 and 2.3 of RFC 3610 |
| `Ccm.OpenIsSealInverse` | golib/replace/dtls/pkg/crypto/ccm/ccm.go:225-261 | a text opens to p if and only if it is what sealing p gives |
| `CbcRecord.ExaminePadding` | golib/replace/dtls/pkg/crypto/ciphersuite/ciphersuite.go:74-109 | the masked loop gives 255 exactly when the padding is correct and bit 31 of the length difference is clear, otherwise 0 |
| `CbcRecord.MaskedIs` | golib/replace/dtls/pkg/crypto/ciphersuite/ciphersuite.go:91-97 | one masked step keeps the byte full exactly when the compared byte is no padding or equal |
| `CbcRecord.FoldIs` | golib/replace/dtls/pkg/crypto/ciphersuite/ciphersuite.go:99-104 | the folding shifts give 255 exactly for 255 |
| `CbcRecord.LongPayloadRefused` | golib/replace/dtls/pkg/crypto/ciphersuite/ciphersuite.go:80-82 | some correct padding, of a payload of 2^31 + 1 bytes, is refused |
| `CbcRecord.AdditionalData` | golib/replace/dtls/pkg/crypto/ciphersuite/ciphersuite.go:34-48 | the bytes written in place are the record header on the wire with its first three bytes moved behind the number and the new length; every field reads back at its own offset |
| `CbcRecord.MacHeaderIs` | golib/replace/dtls/pkg/crypto/ciphersuite/ciphersuite.go:34-48 | the MAC header is the wire header with type and version moved behind the number, field by field |
| `CbcRecord.CidMacHeaderIs` | golib/replace/dtls/pkg/crypto/ciphersuite/cbc.go:209-250 | with a connection identifier it is eight marker bytes, the type again, the size of the identifier, and then the wire header with the length |
| `CbcRecord.MacInputDistinct` | golib/replace/dtls/pkg/crypto/ciphersuite/cbc.go:177-250 | records covered by the same MAC input have the same epoch, number, type, version, connection identifier and payload |
| `CbcRecord.AuthenticatedData` | golib/replace/dtls/pkg/crypto/ciphersuite/cbc.go:177-250 | what each of the two MACs covers, and how reading the inner plaintext fails |
| `CbcRecord.CidMacInput` | golib/replace/dtls/pkg/crypto/ciphersuite/cbc.go:209-250 | with a connection identifier the MAC covers its header and the plaintext twice, and panics exactly on a plaintext of zeros |
| `CbcRecord.Encrypt` | golib/replace/dtls/pkg/crypto/ciphersuite/cbc.go:70-116 | MAC, padding filled by the loop, encryption and the new length field, or the error of the MAC |
| `CbcRecord.Decrypt` | golib/replace/dtls/pkg/crypto/ciphersuite/cbc.go:119-175 | every branch, with and without a connection identifier, including the slice out of range when padding and MAC exceed the body |
| `CbcRecord.AcceptedExactly` | golib/replace/dtls/pkg/crypto/ciphersuite/cbc.go:143-174 | a decrypted text is accepted with a payload if and only if it is payload, MAC and padding, with the bit 31 condition |
| `CbcRecord.RecordRoundTrip` | golib/replace/dtls/pkg/crypto/ciphersuite/cbc.go:70-175 | decrypting an encrypted record gives the payload back if bit 31 of the length of payload and MAC is clear, and is refused otherwise |
| `CbcRecord.EncryptedNeverPanics` | golib/replace/dtls/pkg/crypto/ciphersuite/cbc.go:70-175 | no record encrypted with matching keys makes decryption panic |
| `CbcRecord.PanicsExactly` | golib/replace/dtls/pkg/crypto/ciphersuite/cbc.go:128-157 | for all matching keys, some body of a length that passes the length test makes decryption panic if and only if some padding of that length passes the padding check and either reaches into the MAC or stands in a record with a connection identifier |
| `CbcRecord.PanicLengthIs` | golib/replace/dtls/pkg/crypto/ciphersuite/cbc.go:143-157 | for texts below 2^31 bytes that is: a connection identifier, or a MAC that is not empty and a text shorter than MAC plus 256 bytes |
| `CbcRecord.PanicWitness` | golib/replace/dtls/pkg/crypto/ciphersuite/cbc.go:155-157 | with blocks of 16 and a MAC of 20 bytes, 32 decrypted bytes of 31 are all padding and make the slice bound negative |
| `Extensions.EncodedReads` | golib/replace/dtls/pkg/protocol/extension/extension.go:59-93 | each of the nine kinds decodes to itself whatever follows it, and its length field spans exactly its bytes |
| `Extensions.SrtpReads` | golib/replace/dtls/pkg/protocol/extension/use_srtp.go:29-86 | profile list and key identifier read back |
| `Extensions.AlpnReads` | golib/replace/dtls/pkg/protocol/extension/alpn.go:24-67 | the nested name list reads back |
| `Extensions.ServerNameReads` | golib/replace/dtls/pkg/protocol/extension/server_name.go:29-83 | the host name reads back |
| `Extensions.FormatsRead` | golib/replace/dtls/pkg/protocol/extension/supported_point_formats.go:30-69 | the point formats read back |
| `Extensions.ConnectionIdReads` | golib/replace/dtls/pkg/protocol/extension/connection_id.go:27-61 | the connection ID reads back |
| `Extensions.EncodeCodes` | golib/replace/dtls/pkg/protocol/extension/supported_elliptic_curves.go:30-43 | the append loop writes the counted list of codes |
| `Extensions.ReadCodes` | golib/replace/dtls/pkg/protocol/extension/supported_signature_algorithms.go:48-73 | the loop keeps exactly the known codes, in order |
| `Extensions.ReadNames` | golib/replace/dtls/pkg/protocol/extension/alpn.go:58-64 | the cursor loop reads every name or fails on an empty or cut one |
| `Extensions.ReadHostName` | golib/replace/dtls/pkg/protocol/extension/server_name.go:60-80 | the loop finds the one host name or fails |
| `Extensions.CodesAlone` | golib/replace/dtls/pkg/protocol/extension/supported_elliptic_curves.go:30-66 | a list of known codes reads back |
| `Extensions.MarshalList` | golib/replace/dtls/pkg/protocol/extension/extension.go:99-112 | the loop concatenates the extensions behind their length |
| `Extensions.UnmarshalList` | golib/replace/dtls/pkg/protocol/extension/extension.go:35-96 | the offset loop walks by length fields, skips unknown types and fails where the decoders do |
| `Extensions.ListRoundTrip` | golib/replace/dtls/pkg/protocol/extension/extension.go:35-112 | every list of well-formed extensions, of any kinds in any order, reads back |
| `ClientHello.WriteSuites` | golib/replace/dtls/pkg/protocol/handshake/cipher_suite.go:25-34 | the append loop writes the counted suites |
| `ClientHello.ReadSuites` | golib/replace/dtls/pkg/protocol/handshake/cipher_suite.go:8-23 | the loop reads the suites or fails when one is cut |
| `ClientHello.WriteCompression` | golib/replace/dtls/pkg/protocol/compression_method.go:46-53 | the methods are written last to first |
| `ClientHello.ReadCompression` | golib/replace/dtls/pkg/protocol/compression_method.go:26-43 | the loop keeps the known method |
| `ClientHello.NullMethods` | golib/replace/dtls/pkg/protocol/compression_method.go:19-53 | lists of the one known method are the same in either order |
| `ClientHello.Marshal` | golib/replace/dtls/pkg/protocol/handshake/message_client_hello.go:40-66 | the fields one after another, or the cookie or extension error |
| `ClientHello.Unmarshal` | golib/replace/dtls/pkg/protocol/handshake/message_client_hello.go:69-142 | the fields at their offsets, or the error of the first that is cut |
| `ClientHello.HelloRoundTrip` | golib/replace/dtls/pkg/protocol/handshake/message_client_hello.go:40-142 | every well-formed hello reads back as it was written |
| `HelloRandomize.Shuffle` | golib/webrtc/dtls_randomize.go:184-219 | the swap loop on part of an array is the Fisher and Yates shuffle, seeded or not, ended where the source fails, and leaves the rest alone |
| `HelloRandomize.ShuffledPermutes` | golib/webrtc/dtls_randomize.go:184-193 | for all draws the shuffle is a permutation |
| `HelloRandomize.ShuffleReaches` | golib/webrtc/dtls_randomize.go:184-193 | the results over all draws are exactly the permutations of the list |
| `HelloRandomize.TruncateSuites` | golib/webrtc/dtls_randomize.go:106-137 | the in-place truncation with the required suite swapped in |
| `HelloRandomize.TruncatedStillOffers` | golib/webrtc/dtls_randomize.go:106-137 | for every draw: part of the offer, at least min(3, N) suites, with 0xc02b if it was offered |
| `HelloRandomize.SuitesReach` | golib/webrtc/dtls_randomize.go:104-137 | the results of one level over all draws are exactly the orders of the first n suites, for every n from min(3, N) to N, with 0xc02b in the place of the last one if it would be cut off |
| `HelloRandomize.RandomizeSuites` | golib/replace/dtls/flight1handler.go:165-193 | truncation and shuffle of the suites of one level |
| `HelloRandomize.NegotiationPossible` | golib/replace/dtls/flight1handler.go:157-225 | after both levels, for all draws, the suites still share one with any list holding 0xc02b |
| `HelloRandomize.FindMatching` | golib/replace/dtls/util.go:18-28 | found if and only if the lists share a suite, and then the first of the first list |
| `HelloRandomize.RandomizeField` | golib/webrtc/dtls_randomize.go:140-181 | the lists inside one extension are cut, if there is a seed, and shuffled |
| `HelloRandomize.FieldKept` | golib/webrtc/dtls_randomize.go:140-181 | curves stay a non-empty part, the first signature algorithm stays first, profiles and formats are permuted, all else is unchanged |
| `HelloRandomize.CurvesReach` | golib/webrtc/dtls_randomize.go:142-154 | the results for curves over all draws are exactly the orders of their non-empty first parts |
| `HelloRandomize.AlgorithmsReach` | golib/webrtc/dtls_randomize.go:156-171 | those for signature algorithms keep the first, in exactly all orders of first parts behind it, uncut up to two |
| `HelloRandomize.FlightReaches` | golib/replace/dtls/flight1handler.go:195-219 | the results of the flight level over all draws are exactly the cuts of curves to one or more, of more than two algorithms to one or more, and the orders of profiles |
| `HelloRandomize.BothLevelsKept` | golib/replace/dtls/flight1handler.go:195-219 | the flight level and the hook together change no more than that |
| `HelloRandomize.RandomizeExtensions` | golib/webrtc/dtls_randomize.go:81-87 | every extension is treated, then their order shuffled in place |
| `HelloRandomize.ExtensionsKept` | golib/webrtc/dtls_randomize.go:81-87 | the multiset of extension types stays intact |
| `DnsTtl.SkipDnsName` | golib/tunnel/tun.go:187-208 | the loop finds the end of a name or -1, on every byte string, within bounds |
| `DnsTtl.SkipQuestions` | golib/tunnel/tun.go:222-233 | the loop skips the questions or fails |
| `DnsTtl.MinTtl` | golib/tunnel/tun.go:235-258 | the loop finds the smaller of 300 and the smallest time to live of the complete records |
| `DnsTtl.ParseDnsTtl` | golib/tunnel/tun.go:213-267 | the whole walk, on every byte string |
| `DnsTtl.NameReads` | golib/tunnel/tun.go:187-208 | every name written as section 4.1.4 of RFC 1035 says, with or without a pointer, is skipped to its last byte |
| `DnsTtl.ResponseReads` | golib/tunnel/tun.go:213-258 | of every well-formed response exactly the times to live of its answer and authority records are found, whatever additional records it counts |
| `DnsTtl.CacheTimeIs` | golib/tunnel/tun.go:213-267 | the result is the minimum over the complete records, capped at 300, and 300 when there is none or it is 0; so it lies in 1..300 |
| `DnsCache.Cache.constructor` | golib/tunnel/tun.go:90-95 | the cache starts empty |
| `DnsCache.Cache.Lookup` | golib/tunnel/tun.go:99-136 | map and list agree after every look-up and together are the association list: moved to the front, or removed when expired |
| `DnsCache.Cache.Store` | golib/tunnel/tun.go:140-183 | likewise for a store, with the least recently used entries dropped from a full cache |
| `DnsCache.SameQuestion` | golib/tunnel/tun.go:99-103 | queries share an entry exactly when they differ in their transaction numbers only |
| `DnsCache.KeepForIs` | golib/tunnel/tun.go:140-151 | a response is kept for the time its records allow, from 1 to 300 seconds, and at most 30 if its response code is 3 |
| `DnsCache.RunGood` | golib/tunnel/tun.go:99-183 | in every run at most 512 distinct keys, in order of last use, each with the latest response stored for it |
| `DnsCache.HitIsLatest` | golib/tunnel/tun.go:99-183 | every hit in every run returns, byte for byte, the latest response stored for that query with the query's own number, within 300 s of storing it, 30 s for a name that does not exist |
| `DnsCacheHits.LiveEntryHits` | golib/tunnel/tun.go:99-183 | in every run a query whose latest response has not expired, nor was found expired, and behind fewer than 512 other keys used since its last use, hits: that response under the query's number, with the prefetch flag exactly in the last tenth of its time |
| `DnsCacheHits.ThereExactly` | golib/tunnel/tun.go:140-183 | in runs in which no look-up found an expired entry, a key is there exactly when fewer than 512 other keys were used since its last use |
| `DnsCacheHits.HitExactly` | golib/tunnel/tun.go:99-183 | in such runs a query hits if and only if a response is stored for it that has not expired and is not pushed out |
| `DnsBatch.Batcher.SubmitQuery` | golib/tunnel/dnschannel.go:250-286 | the section under the lock: queued, flushed at sixteen with the timer stopped, or a timer started |
| `DnsBatch.Batcher.TimerFired` | golib/tunnel/dnschannel.go:273-282 | the callback takes the whole queue, also when it runs late |
| `DnsBatch.Batcher.Close` | golib/tunnel/dnschannel.go:369-380 | everything queued fails, the timer is stopped |
| `DnsBatch.BuildFrames` | golib/tunnel/dnschannel.go:319-330 | the loop concatenates the frames |
| `DnsBatch.FramesRead` | golib/tunnel/dnschannel.go:319-330 | a batch written in one piece reads as its queries one by one |
| `DnsBatch.RunInv` | golib/tunnel/dnschannel.go:250-390 | the invariant holds under every interleaving of submits, timers, flushes that register query by query, readers and close |
| `DnsBatch.NothingLost` | golib/tunnel/dnschannel.go:250-390 | in every run a non-empty queue has an outstanding timer, no batch exceeds 16, and batches, close failures and queue are the submitted queries, each once and in order |
| `DnsBatch.AtMostOneResult` | golib/tunnel/dnschannel.go:67-163 | in every run a query gets at most one result, and an answer carries its own transaction number |
| `DnsBatch.RegisteredWaits` | golib/tunnel/dnschannel.go:333-360 | the next query of a flush, once registered, is the one that waits for its number on that channel |
| `DnsBatch.ResponseReaches` | golib/tunnel/dnschannel.go:140-163 | in every run a response whose number is registered becomes the result of the query registered, once taken; the channel's end becomes its failure |
| `DnsOutcomes.EveryQueryPlaced` | golib/tunnel/dnschannel.go:250-390 | in every run every submitted query is queued, in a batch yet to be flushed or registered, waiting, done, or was sent among others without a transaction number |
| `DnsOutcomes.QuietMeansAnswered` | golib/tunnel/dnschannel.go:250-390 | in every run, once nothing is left to do, every query with a transaction number has exactly one result |
| `PaddedStream.Stream.Write` | golib/webrtc/padding.go:62-100 | the burst before the first write, then the frame with or without padding, through the reused buffer; what the inner stream took and whether it failed |
| `PaddedStream.PadReaches` | golib/webrtc/padding.go:66-71 | the padding lengths over all draws are exactly those from the smallest to one below the largest, or the one length of an empty range |
| `PaddedStream.Stream.WriteDecoy` | golib/webrtc/padding.go:103-114 | a decoy frame is written, or the part the inner stream took, and the error |
| `PaddedStream.Stream.WriteBurstEnd` | golib/webrtc/padding.go:117-120 | the end signal is written, or the error |
| `PaddedStream.BuildBurst` | golib/webrtc/padding_burst.go:13-34 | the buffer filled at a moving offset is the decoys and the end signal |
| `PaddedStream.Stream.Read` | golib/webrtc/padding.go:122-223 | the frame loop: buffered bytes first, decoys and empty payloads skipped, errors on a cut wire or an unknown flag |
| `PaddedStream.WireDecodes` | golib/webrtc/padding.go:62-120 | the wire of any writes, decoys and burst decodes to the concatenated payloads |
| `PaddedStream.CutDecodes` | golib/webrtc/padding.go:122-223 | a wire cut anywhere decodes to a prefix |
| `PaddedStream.BurstCutExactly` | golib/webrtc/padding_burst.go:36-39 | behind the part of a burst that was taken, everything written reads back if and only if that part ends with a whole frame |
| `PaddedStream.Transparent` | golib/webrtc/padding.go:62-223 | for any read sizes the bytes read are a prefix of the payloads, also on a cut wire, and all of them once the reader finds no more |
| `PaddedStream.WriteBoundIsExact` | golib/webrtc/padding.go:73-93 | a write reads back if and only if it has at most 65535 bytes |
| `DcStream.Conn.ReadBytes` | golib/webrtc/dcconn.go:67-84 | a read takes from the range kept in the reused buffer, and reads a new message over it only when that range is empty |
| `DcStream.StreamOfMessages` | golib/webrtc/dcconn.go:67-84 | reads of any sizes give the messages' bytes in order, and once a read fails they have given all of them if and only if every message fits 65536 bytes |

## Left out

- Connection identifiers on the handshake transport; they are modelled in record headers and CBC records.
- ConnWriter.Writer.ProcessPacket: encryption and wrapping with a connection identifier are left out; the records are those before encryption. CCM and CBC are modelled on their own.
- ConnWriter.Writer.ProcessHandshakePacket: likewise without encryption and connection identifiers.
- Sending and receiving on sockets, addresses, deadlines and alerts on the wire.
- Record numbers are unbounded numbers checked against 2^48-1; the wrap-around of the 64-bit counter behind that check is not modelled.
- TranscriptAgreement.RunGood: a call that fails because an epoch has used up its 2^48 numbers ends the handshake and is no step of a run.
- TranscriptAgreement.SameTranscript: covers messages cut with one fragment size per sender; fragments of one message cut in two ways at once are not modelled.
- FinishedAgreement.ServerFinishedAccepted: takes as premises that nothing under the rules is sent after the Finished, which SpokenRuns derives from the state machines, and equal master secrets, which FullHandshakeAgrees derives for the extended master secret.
- FinishedAgreement.FullHandshakeAgrees: takes the silence after the Finished as a premise; FullHandshakeSpoken derives it.
- FinishedAgreement.ClientVerifyExpected: takes the master secrets as equal; SessionHashAgrees gives that for the extended master secret.
- FinishedAgreement.ResumingServerAccepted: takes the master secrets as equal, since both come from session stores.
- FinishedAgreement.ClientFinishedAccepted: likewise; ResumedHandshakeSpoken derives the silence after the Finished.
- SpokenRuns.FullHandshakeSpoken: which optional messages a flight has is a free choice, so that nothing under the session rules follows the client's key exchange stays a premise of FlightComesThrough; a state machine that has used up its 65536 message numbers is left out.
- HandshakeFsm.RunFlights: starts from a fresh handshake; importing a saved connection state starts in flight 5 or 6 and is not modelled.
- Certificates, signatures, key exchange, session stores and extension policies of a handshake are answers given by the environment to the state machine.
- ReliableRtp.ReliableDelivery: safety; that what was delivered with room is read is RtpProgress.DeliveredIsRead. A frame refused by a full window is acknowledged all the same and may be lost, so delivery itself is a premise there. Frames above 65536 bytes and closing are not modelled.
- Ccm.Seal: the aliasing of destination and plaintext is not modelled; counter mode itself is taken from its definition in the Go library.
- Extensions.EncodedReads: the SRTP profile and point format loops, and the single-value extensions, are modelled on values rather than as loops.
- HelloRandomize.Shuffle: the sharing of configuration slices with the hello that is shuffled is not modelled.
- DnsCache.Cache.Lookup: the prefetch flag is computed with exact arithmetic instead of floating point, and background prefetching is left out.
- DnsBatch.AtMostOneResult: opening, pruning and choosing channels is an arbitrary choice; that every query is eventually answered depends on timers firing and is stated as DnsOutcomes.QuietMeansAnswered.
- Back-pressure, signaling, STUN, UPnP, SOCKS5, Xray, logging and settings: input and output plumbing with little to prove.
- Backoff with jitter, quality scores and rate limiting.
