# Phone webcam: models of the network path and proofs about them

A phone sends video to an OBS plug-in. This project models the code between the two and proves what it
promises:

- **SRTP packets**: libsrtp's protect and unprotect, in counter mode with HMAC and in AEAD mode, with MKIs,
  header-extension encryption (RFC 6904) and Cryptex (RFC 9335). The packet transform is a function on octets
  (`SrtpPacket`, `SrtpHeaderExt`, `SrtpCryptex`, `SrtpTransform`, `SrtpAead`); the methods that work on one buffer
  (`SrtpInPlace`, `SrtpBuffers`, `SrtpProtect`, `SrtpUnprotect`, `SrtpAeadInPlace`) are proved equal to it, and the
  round trips are proved of the functions (`SrtpRoundTrip`, `SrtpAead`, with failing inputs in `SrtpFailures`),
  and of streams and sessions with replay states of their own (`StreamRoundTrip`, `SessionRoundTrip`). What stands on
  the wire is stated with offsets and positions written out (`SrtpWire`, `SrtpAeadWire`, `SrtpExtension`).
- **SRTP streams and sessions** (`ReplayWindow`, `SrtpStream`, `StreamMemory`, `StreamPackets`, `StreamList`,
  `SessionMemory`, `UpdateMemory`, `SrtpSession`, `SessionRuns`, `SessionReplay`): packet indices and the replay
  window; the growable list of streams, streams cloned from a template with shared objects, packets through the
  stream or template they belong to, updates that empty the list they walk over, and an allocator in which releasing
  something twice is a precondition failure.
- **AES** (`Aes*.dfy`): key expansion and the table-driven rounds, against FIPS 197, decryption against encryption,
  the substitution table against inversion in GF(2^8), and two published examples.
- **UDP frames** (`Udp*.dfy`): eight reassembly slots with reused buffers, the receive buffer in front of them, and
  the phone's sender.
- **H.264 over RTP** (`Rtp*.dfy`, `AnnexB.dfy`): the depacketizer, its loss safety and its recovery from losses, what
  streams of units in any order come out as, the receive buffer, and the phone's packetizer.
- **Handshake** (`Sha256*.dfy`, `Auth.dfy`, `Handshake*.dfy`): streaming SHA-256 with its constants and a published
  digest, HMAC, hexadecimal text, the field extraction from JSON text and the decision that uses them.
- **Discovery** (`Dns*.dfy`): DNS names with compression, the record walk over an mDNS response, what the walk sees of
  a well-formed response that may not fit the receive buffer, and what it reports of the records' fields.

Objects that the sources update in place are classes or arrays here, and each method is proved against a
function of the old state. `Bytes.dfy` holds octets, words, exclusive or, and what a receive call does with a
datagram that is longer than the buffer: it cuts it off, or fails (the mDNS loop is compiled for Windows, where it
fails).

Where the code does not do what one would expect of it, the model follows the code. For each of these there is a
failing input, and a theorem that says for which inputs the code does what is expected; where that theorem goes in
one direction only, it is said here.

- The counter-mode SRTP round trip fails in two cases and only there (`SrtpRoundTrip.CtrFails`): header-extension
  encryption together with Cryptex, where the receiver walks the extension under the Cryptex profile
  (`SrtpFailures.BothEncryptionsFail`); and a stream set up for Cryptex that does not encrypt, whose packet already
  carries a Cryptex profile, which the receiver renames (`SrtpFailures.LookalikeFails`). The AEAD round trip fails
  in the second case (`SrtpFailures.AeadLookalikeFails`); the first is left out for it.
- An update of one stream that asks for a window the stream cannot have removes the stream and then fails
  (`SessionRuns.RefusedUpdateKeeps`, `WindowLosesStream`).
- A wildcard update with such a window leaks everything but one block of the template it could not initialise
  (`SessionRuns.Run`, `SmallWindowLeaks`).
- A successful update keeps a stream's highest index and clears its window, so that a packet accepted before it and
  still within the window is accepted again (`ReplayWindow.ReplayFreeIff`, `SessionReplay.UpdateForgets`).
- `srtp_stream_add` does not check whether the SSRC is there already (`SessionRuns.AddKeepsDistinct`).
- A UDP frame numbered 0xFFFFFFFF is lost by a freshly started receiver, because that number is the sentinel of an
  empty slot; for every other number the frame arrives (`UdpDelivery.SentinelFrameLost`).
- A UDP frame with chunks longer than 1484 octets comes back with holes or not at all (`UdpBuffer.DeliveredIffFits`,
  `OversizeDamaged`), although the header check admits chunks of up to 65000 octets.
- RTP packets longer than 8192 octets are damaged or lost (`RtpBuffer.StreamArrives`, `LongSliceDamaged`).
- A fragmented NAL unit that comes after a unit that is not a parameter set cuts its access unit
  (`RtpStreams.OneFrame`, `FramesAreCuts`, `LaterFragmentCuts`).
- An IDR slice inside a STAP-A does not take the waiting parameter sets along (`RtpStreams.EveryIdrServed`,
  `AggregatedIdrUnserved`).
- The DNS record walk misses records exactly when the message does not fit 4096 octets or has an authority section
  (`DnsMessage.WalkIsComplete`, `LongResponseLost`). The name reader takes every length below 192 for a label and
  stops after 64 steps (`DnsName.ReadWritten`, `TooManyLabels`). An instance with a dot inside a label is asked for
  under another name (`DnsService.AskedIff`, `DotsSplit`).
- `srtp_aes_expand_decryption_key` turns the schedule round by the number of rounds the structure held before the
  call. `AesKeys.ExpandedKey.ExpandDecryptionKey` states the schedule for every such number. `AesInverse` asks for
  the right one and goes in one direction; `AesWitness.ZeroedStructureFails` shows a block that a zeroed structure
  does not give back.

## Model

| member | source | states |
|---|---|---|
| `SrtpRoundTrip.CtrRoundTrip` | android/PhoneWebcam/app/src/main/cpp/external/libsrtp/srtp/srtp.c:2496-3175 | Counter mode and HMAC: for every valid packet, configuration, MKI index and packet index, once protect succeeds, unprotect in place with the same keys and index returns the exact octets and length if and only if the stream does not combine header-extension encryption with Cryptex and is not a clear Cryptex stream whose packet already carries a Cryptex profile |
| `SrtpAead.AeadRoundTrip` | android/PhoneWebcam/app/src/main/cpp/external/libsrtp/srtp/srtp.c:2091-2494 | The same round trip for AEAD under the decrypt-after-encrypt law, with ciphertext, tag and MKI laid out as the source does, for streams that do not combine header-extension encryption with Cryptex: it holds if and only if the stream is not a clear Cryptex stream whose packet already carries a Cryptex profile; the packet grows by exactly tag and MKI |
| `SrtpFailures.BothEncryptionsFail` | android/PhoneWebcam/app/src/main/cpp/external/libsrtp/srtp/srtp.c:2496-3175 | A concrete stream with both encryptions of the extension and a concrete packet: protect succeeds, unprotect does not give the packet back |
| `SrtpFailures.LookalikeFails` | android/PhoneWebcam/app/src/main/cpp/external/libsrtp/srtp/srtp.c:2496-3175 | The same for a clear Cryptex stream and a packet with a Cryptex profile of its own |
| `SrtpFailures.AeadLookalikeFails` | android/PhoneWebcam/app/src/main/cpp/external/libsrtp/srtp/srtp.c:2091-2494 | The same with an AEAD cipher |
| `SrtpRoundTrip.ReceivedBack` | android/PhoneWebcam/app/src/main/cpp/external/libsrtp/srtp/srtp.c:2823-3175 | The receiving half: any packet that carries the protected body, the right MKI and the right tag opens to the original exactly outside the two failing cases |
| `SrtpRoundTrip.CryptexOpens` | android/PhoneWebcam/app/src/main/cpp/external/libsrtp/srtp/srtp.c:240-308 | A packet sent with Cryptex opens to the original, profile included |
| `SrtpRoundTrip.CryptexBlocksWalk` | android/PhoneWebcam/app/src/main/cpp/external/libsrtp/srtp/srtp.c:3076-3083 | With Cryptex on the wire and an extension cipher set, unprotect ends with a parse error: the first failing case of the round trip |
| `SrtpRoundTrip.LookalikeRenamed` | android/PhoneWebcam/app/src/main/cpp/external/libsrtp/srtp/srtp.c:240-308 | A clear stream set up for Cryptex renames a Cryptex profile that the sender put there: the second failing case |
| `SrtpRoundTrip.PlainOpens` | android/PhoneWebcam/app/src/main/cpp/external/libsrtp/srtp/srtp.c:2965-3108 | Without Cryptex the packet opens to the original, header-extension encryption included |
| `SrtpRoundTrip.ProcessAgain` | android/PhoneWebcam/app/src/main/cpp/external/libsrtp/srtp/srtp.c:1805-1897 | Processing the extension of a packet whose body was processed restores the body and touches nothing else |
| `SrtpHeaderExt.HeaderEncryptionIsInvolution` | android/PhoneWebcam/app/src/main/cpp/external/libsrtp/srtp/srtp.c:1805-1897 | For every extension body, form, id list and keystream: two walks restore the body, end alike and meet the same elements with the same keystream positions |
| `SrtpHeaderExt.WalkTwice` | android/PhoneWebcam/app/src/main/cpp/external/libsrtp/srtp/srtp.c:1805-1897 | The second walk gives back the body and the first walk's success flag, also when the walk fails half way |
| `SrtpHeaderExt.ElementsKept` | android/PhoneWebcam/app/src/main/cpp/external/libsrtp/srtp/srtp.c:1805-1897 | The walked body has the same element boundaries, ids and keystream positions |
| `SrtpHeaderExt.WalkChanges` | android/PhoneWebcam/app/src/main/cpp/external/libsrtp/srtp/srtp.c:1840-1849 | Octet by octet: data of listed ids is masked with the keystream octet of its element, everything else is unchanged |
| `SrtpHeaderExt.PaddingKept` | android/PhoneWebcam/app/src/main/cpp/external/libsrtp/srtp/srtp.c:1851-1854 | The zero padding after an element is found again at the same place after encryption |
| `SrtpCryptex.BufferModesAgree` | android/PhoneWebcam/app/src/main/cpp/external/libsrtp/srtp/srtp.c:138-238 | In-place Cryptex (rotate, encrypt one region, rotate back) gives the same octets as out-of-place Cryptex (CSRCs, then the keystream goes on over the rest), for every CSRC count and length |
| `SrtpCryptex.InPlaceOctet` | android/PhoneWebcam/app/src/main/cpp/external/libsrtp/srtp/srtp.c:138-238 | Octet by octet what RFC 9335 section 6 asks for: fixed header and extension header clear, keystream over CSRCs and on over the rest |
| `SrtpCryptex.OutOfPlaceOctet` | android/PhoneWebcam/app/src/main/cpp/external/libsrtp/srtp/srtp.c:198-229 | The same octet-by-octet meaning for two buffers |
| `SrtpCryptex.UnrotateRotated` | android/PhoneWebcam/app/src/main/cpp/external/libsrtp/srtp/srtp.c:138-164 | The second rotation undoes the first |
| `SrtpCryptex.InPlaceTwice` | android/PhoneWebcam/app/src/main/cpp/external/libsrtp/srtp/srtp.c:240-308 | Encrypting and decrypting in place restores the packet whatever profile stands in the extension header meanwhile and whatever follows the packet |
| `SrtpPacket.KeyAgreed` | android/PhoneWebcam/app/src/main/cpp/external/libsrtp/srtp/srtp.c:1964-1999 | With distinct MKIs the receiver picks the very key the sender used |
| `SrtpPacket.LayoutKept` | android/PhoneWebcam/app/src/main/cpp/external/libsrtp/srtp/srtp.c:99-136 | The layout depends on the header octets alone: packets that share them share CSRC count, extension, lengths and payload start |
| `SrtpPacket.XorRangeCancels` | android/PhoneWebcam/app/src/main/cpp/external/libsrtp/srtp/srtp.c:3093-3100 | Adding the keystream twice over a region restores it |
| `SrtpBuffers.ReadHeaders` | android/PhoneWebcam/app/src/main/cpp/external/libsrtp/srtp/srtp.c:310-340 | Header validation and lengths on the buffer: valid exactly when the fixed header, the CSRC list and the extension fit |
| `SrtpBuffers.MoveXtnBeforeCsrc` | android/PhoneWebcam/app/src/main/cpp/external/libsrtp/srtp/srtp.c:138-150 | The buffer afterwards is the rotated packet |
| `SrtpBuffers.MoveCsrcBeforeXtn` | android/PhoneWebcam/app/src/main/cpp/external/libsrtp/srtp/srtp.c:152-164 | The buffer afterwards is the packet rotated back |
| `SrtpBuffers.CryptexInPlace` | android/PhoneWebcam/app/src/main/cpp/external/libsrtp/srtp/srtp.c:198-238 | Rotate, encrypt, rotate back on one array: the specified in-place transform of the old contents |
| `SrtpBuffers.CryptexOutOfPlace` | android/PhoneWebcam/app/src/main/cpp/external/libsrtp/srtp/srtp.c:2645-2782 | From a source buffer to another one: the specified out-of-place transform, nothing behind the packet written |
| `SrtpInPlace.XorInPlace` | android/PhoneWebcam/app/src/main/cpp/external/libsrtp/srtp/srtp.c:2767-2774 | The keystream loop equals the specified exclusive or of a region |
| `SrtpInPlace.Listed` | android/PhoneWebcam/app/src/main/cpp/external/libsrtp/srtp/srtp.c:1782-1800 | Linear search of the id list decides membership |
| `SrtpInPlace.ProcessElement` | android/PhoneWebcam/app/src/main/cpp/external/libsrtp/srtp/srtp.c:1820-1854 | One element in place: header kept, data masked if its id is listed, the next element found behind the padding |
| `SrtpInPlace.WalkInPlace` | android/PhoneWebcam/app/src/main/cpp/external/libsrtp/srtp/srtp.c:1817-1896 | The element loop on the array equals the recursive walk, in result and in success |
| `SrtpBuffers.ProcessXtnInPlace` | android/PhoneWebcam/app/src/main/cpp/external/libsrtp/srtp/srtp.c:1805-1897 | Header encryption on the packet buffer equals the specified processing of the packet, unsupported forms refused untouched |
| `SrtpBuffers.BodyInPlace` | android/PhoneWebcam/app/src/main/cpp/external/libsrtp/srtp/srtp.c:2748-2782 | Header extension, Cryptex or cipher on the packet at the front of a buffer, as specified, with the octets behind it unchanged |
| `SrtpProtect.PrepareTrailer` | android/PhoneWebcam/app/src/main/cpp/external/libsrtp/srtp/srtp.c:2650-2746 | MKI and keystream prefix in the trailer, the packet itself untouched |
| `SrtpProtect.WriteTag` | android/PhoneWebcam/app/src/main/cpp/external/libsrtp/srtp/srtp.c:2784-2810 | The tag over packet and rollover counter lands behind the MKI and nowhere else |
| `SrtpProtect.ProtectInPlace` | android/PhoneWebcam/app/src/main/cpp/external/libsrtp/srtp/srtp.c:2496-2821 | srtp_protect in place has exactly the specified status, length and octets; a refused packet and everything behind the trailer stay as they were |
| `SrtpUnprotect.AcceptInPlace` | android/PhoneWebcam/app/src/main/cpp/external/libsrtp/srtp/srtp.c:2965-3108 | Size checks and authentication in the order of the source; a packet that fails authentication is left as it was |
| `SrtpUnprotect.UnprotectInPlace` | android/PhoneWebcam/app/src/main/cpp/external/libsrtp/srtp/srtp.c:2823-3108 | srtp_unprotect in place has exactly the specified status, length and octets |
| `SrtpAeadInPlace.ProtectAeadInPlace` | android/PhoneWebcam/app/src/main/cpp/external/libsrtp/srtp/srtp.c:2091-2270 | srtp_protect_aead in place has exactly the specified status, length and octets |
| `SrtpAeadInPlace.UnprotectAeadInPlace` | android/PhoneWebcam/app/src/main/cpp/external/libsrtp/srtp/srtp.c:2279-2425 | srtp_unprotect_aead in place has exactly the specified outcome, wrap-around of the size checks included |
| `SrtpWire.CtrOnWire` | android/PhoneWebcam/app/src/main/cpp/external/libsrtp/srtp/srtp.c:2600-2816 | What protect sends, octet for octet: fixed header clear; CSRCs, extension and payload clear or masked with the keystream of SSRC and packet index, from its first octet on or, with authentication, behind the prefix; the two profiles that Cryptex renames; then the MKI; then the tag made with the prefix over those octets and the upper 32 bits of the index |
| `SrtpWire.CtrRefused` | android/PhoneWebcam/app/src/main/cpp/external/libsrtp/srtp/srtp.c:3009-3059 | A packet that names a known key and fits is refused for its tag if and only if the last octets are not the tag over its RTP octets and the upper 32 bits of the index |
| `SrtpWire.CtrOffWire` | android/PhoneWebcam/app/src/main/cpp/external/libsrtp/srtp/srtp.c:3061-3108 | What an accepted packet comes out as, octet for octet, for packets of any sender |
| `SrtpWire.ProtectStatus` | android/PhoneWebcam/app/src/main/cpp/external/libsrtp/srtp/srtp.c:2496-2782 | How protect ends, for every input, in terms of octets, lengths and key count, in the order in which it looks |
| `SrtpWire.UnprotectStatus` | android/PhoneWebcam/app/src/main/cpp/external/libsrtp/srtp/srtp.c:2823-3108 | The same for unprotect once the index is known |
| `SrtpWire.KeyChosen` | android/PhoneWebcam/app/src/main/cpp/external/libsrtp/srtp/srtp.c:1210-1232 | Without MKIs the first key, with MKIs the one the caller names |
| `SrtpAeadWire.AeadOnWire` | android/PhoneWebcam/app/src/main/cpp/external/libsrtp/srtp/srtp.c:2091-2277 | What protect sends with an AEAD cipher: the headers are the associated data, with Cryptex only the fixed header and the extension header with the CSRCs sealed too; the text is sealed under SSRC and index; the MKI follows |
| `SrtpAeadWire.AeadRefused` | android/PhoneWebcam/app/src/main/cpp/external/libsrtp/srtp/srtp.c:2279-2425 | A packet that names a known key and fits is refused for its tag if and only if the cipher does not open what lies behind those headers, with them as associated data |
| `SrtpAeadWire.AeadOffWire` | android/PhoneWebcam/app/src/main/cpp/external/libsrtp/srtp/srtp.c:2279-2460 | What an accepted packet comes out as: the opened text where it was, the octets moved back and renamed with Cryptex, and then the extension decrypted |
| `SrtpAeadWire.StatusesAgree` | android/PhoneWebcam/app/src/main/cpp/external/libsrtp/srtp/srtp.c:2091-2277 | Protect with an AEAD cipher ends as protect in counter mode does, for every input |
| `SrtpAeadWire.UnprotectAeadStatus` | android/PhoneWebcam/app/src/main/cpp/external/libsrtp/srtp/srtp.c:2279-2425 | How unprotect with an AEAD cipher ends, the wrap-around of the sizes of too short packets included |
| `SrtpExtension.ElementsEncrypted` | android/PhoneWebcam/app/src/main/cpp/external/libsrtp/srtp/srtp.c:1805-1897 | An extension built from elements as RFC 8285 lays them out, with any padding: the walk succeeds and changes the data of the listed elements and nothing else, the keystream running over headers and data |
| `SrtpExtension.ReservedIdEnds` | android/PhoneWebcam/app/src/main/cpp/external/libsrtp/srtp/srtp.c:1829-1832 | Id 15 of the one-byte form ends the walk and leaves the rest as it is |
| `SrtpExtension.OverrunFails` | android/PhoneWebcam/app/src/main/cpp/external/libsrtp/srtp/srtp.c:1825-1827 | An element longer than the rest of the extension is an error |
| `StreamRoundTrip.StreamsAgree` | android/PhoneWebcam/app/src/main/cpp/external/libsrtp/srtp/srtp.c:2496-3175 | Sender and receiver with replay states of their own: a packet sent with an index near to both and new to the receiver comes back as it was if and only if the settings can carry it |
| `SessionRoundTrip.SessionsAgree` | android/PhoneWebcam/app/src/main/cpp/external/libsrtp/srtp/srtp.c:2496-3175 | The same for whole sessions, through a stream or through the template at either end: what one srtp_protect sends, the other srtp_unprotect gives back exactly, if and only if the settings can carry it |
| `StreamRoundTrip.HeaderNumbers` | android/PhoneWebcam/app/src/main/cpp/external/libsrtp/srtp/srtp.c:2065-2089 | Streams are found by octets 8 to 11 of the packet and indices made from octets 2 and 3, most significant first |
| `SessionRuns.Run` | android/PhoneWebcam/app/src/main/cpp/external/libsrtp/srtp/srtp.c:3216-3571 | Any run of add, protect, unprotect, remove and update calls between create and dealloc releases every allocation exactly once if and only if no call is a wildcard update whose window is refused after the new template was allocated, which a caller can tell from the policies alone |
| `SessionRuns.RunCalls` | android/PhoneWebcam/app/src/main/cpp/external/libsrtp/srtp/srtp.c:3253-3571 | At every step of a run the session holds what is live, but for what such updates let go; and if every stream is added before its first packet, and once, SSRCs are distinct throughout |
| `SessionRuns.SmallWindowLeaks` | android/PhoneWebcam/app/src/main/cpp/external/libsrtp/srtp/srtp.c:3527-3538 | A concrete run that leaks: a template, then an update that asks for a window of 32 |
| `SessionRuns.KindNext` | android/PhoneWebcam/app/src/main/cpp/external/libsrtp/srtp/srtp.c:3493-3523 | How the template uses MKIs is fixed by the first wildcard policy that was added, through every call; so the leaking calls are known from the policies |
| `SessionRuns.DistinctNext` | android/PhoneWebcam/app/src/main/cpp/external/libsrtp/srtp/srtp.c:3306-3312 | One more call keeps SSRCs distinct when the run adds each stream before its first packet, and once |
| `SessionRuns.NoDanglingReference` | android/PhoneWebcam/app/src/main/cpp/external/libsrtp/srtp/srtp.c:380-514 | No stream of a session refers to an object that was released |
| `SessionRuns.TemplateUpdateConserves` | android/PhoneWebcam/app/src/main/cpp/external/libsrtp/srtp/srtp.c:3440-3571 | A successful wildcard update keeps the SSRCs, in order, each stream's highest packet index and RTCP replay state, and leaves streams that share nothing with the template as the same objects |
| `SessionRuns.StreamUpdateConserves` | android/PhoneWebcam/app/src/main/cpp/external/libsrtp/srtp/srtp.c:3573-3620 | A successful update of one SSRC keeps the set of SSRCs, that stream's highest packet index and RTCP replay state and all other streams |
| `SessionRuns.RefusedUpdateKeeps` | android/PhoneWebcam/app/src/main/cpp/external/libsrtp/srtp/srtp.c:3581-3609 | A refused update of one SSRC keeps the stream if and only if it is refused before the stream is removed: for its keys or MKI, an unknown SSRC or incompatible settings; refused for its window, the stream is gone |
| `SessionRuns.WindowLosesStream` | android/PhoneWebcam/app/src/main/cpp/external/libsrtp/srtp/srtp.c:3599-3609 | A known stream and an update that asks for a window of 32: bad parameter, and the stream is gone |
| `SessionRuns.ProtectKeepsMap` | android/PhoneWebcam/app/src/main/cpp/external/libsrtp/srtp/srtp.c:2529-2579 | A protect call binds its own SSRC or nothing, and keeps SSRCs distinct |
| `SessionRuns.UnprotectKeepsMap` | android/PhoneWebcam/app/src/main/cpp/external/libsrtp/srtp/srtp.c:2845-3170 | An unprotect that does not succeed, whichever check the packet fails, leaves the map as it was; a successful one binds its own SSRC only |
| `SessionRuns.AcceptedOnce` | android/PhoneWebcam/app/src/main/cpp/external/libsrtp/srtp/srtp.c:2859-2887 | A packet that was accepted, even one that brought its stream, is refused as a replay when its SSRC and sequence number come again, and the refusal changes nothing |
| `SessionRuns.AddKeepsDistinct` | android/PhoneWebcam/app/src/main/cpp/external/libsrtp/srtp/srtp.c:3306-3312 | Adding keeps SSRCs distinct exactly when the SSRC is new: the source does not look |
| `SessionRuns.SenderMarked` | android/PhoneWebcam/app/src/main/cpp/external/libsrtp/srtp/srtp.c:2573-2579 | A stream without a direction becomes a sender with its first protected packet, whatever becomes of it; one with a direction keeps it |
| `SessionRuns.ReceiverMarked` | android/PhoneWebcam/app/src/main/cpp/external/libsrtp/srtp/srtp.c:3110-3131 | It becomes a receiver with the first packet that is let through |
| `SessionReplay.NoReplay` | android/PhoneWebcam/app/src/main/cpp/external/libsrtp/srtp/srtp.c:2823-3175 | Replay protection over whole runs of a session: whatever packets arrive for whatever streams and whatever updates succeed between them, two packets of one SSRC that are accepted have different packet indices unless an update between them renewed the window of that stream, from the packet that brings the stream until the rollover counter runs out |
| `SessionReplay.UpdateForgets` | android/PhoneWebcam/app/src/main/cpp/external/libsrtp/srtp/srtp.c:3573-3620 | After an update of its stream a sequence number that was refused as a replay is let through again if and only if its index lies in the new window: the update restores the highest index and clears the bits |
| `SessionReplay.WindowAlong` | android/PhoneWebcam/app/src/main/cpp/external/libsrtp/srtp/srtp.c:2859-3170 | The invariant behind it: at every step the stream, or the template that will bring it, holds the window that the sequence numbers accepted so far and the renewals between them give: an update of the stream, or of the template it is or will be a clone of |
| `StreamPackets.ProtectOnStream` | android/PhoneWebcam/app/src/main/cpp/external/libsrtp/srtp/srtp.c:2600-2694 | One packet through one stream in place: the checks, the index and the transform in the order of the source, with the stream's replay state afterwards for every status |
| `StreamPackets.UnprotectOnStream` | android/PhoneWebcam/app/src/main/cpp/external/libsrtp/srtp/srtp.c:2889-3108 | The same for a received packet; a packet refused for its header, MKI, room in the buffer or index leaves the buffer alone, and so does, in counter mode, one that fails authentication |
| `StreamPackets.NoIndexReused` | android/PhoneWebcam/app/src/main/cpp/external/libsrtp/srtp/srtp.c:2665-2694 | A stream that may not repeat never takes one sequence number for two packets running, whatever became of the first: the second is refused and the stream stays |
| `ReplayWindow.NoIndexTwice` | android/PhoneWebcam/app/src/main/cpp/external/libsrtp/crypto/replay/rdbx.c:227-270 | Replay protection over every run of sequence numbers until the rollover counter runs out: a packet is let through exactly when its index was not taken since the window was last renewed and is not further back than the window reaches |
| `ReplayWindow.ReplayFreeIff` | android/PhoneWebcam/app/src/main/cpp/external/libsrtp/srtp/srtp.c:3597-3616 | Whatever sequence numbers arrive, no index is let through twice if and only if the window is never renewed between two packets; where it is, the proof gives the numbers that repeat |
| `ReplayWindow.EstimateExact` | android/PhoneWebcam/app/src/main/cpp/external/libsrtp/crypto/replay/rdbx.c:112-299 | Sender and receiver agree on the packet index exactly while the receiver is within half a sequence-number cycle of it |
| `ReplayWindow.RollsOver` | android/PhoneWebcam/app/src/main/cpp/external/libsrtp/crypto/replay/rdbx.c:112-146 | The rollover counter has 32 bits: past its end the index begins again |
| `ReplayWindow.NotTwice` | android/PhoneWebcam/app/src/main/cpp/external/libsrtp/srtp/srtp.c:2041-2084 | Also with a rollover counter that was set: once a sequence number is taken it is refused |
| `ReplayWindow.FirstNotTwice` | android/PhoneWebcam/app/src/main/cpp/external/libsrtp/srtp/srtp.c:2871-2882 | The same for the packet that brings a stream |
| `ReplayWindow.RocTaken` | android/PhoneWebcam/app/src/main/cpp/external/libsrtp/srtp/srtp.c:2065-2089 | With a rollover counter that was set: the index it names is refused more than half a cycle back, starts the window anew more than half a cycle ahead, and is otherwise let through exactly when the window has room for it and did not take it |
| `ReplayWindow.CheckIsMembership` | android/PhoneWebcam/app/src/main/cpp/external/libsrtp/crypto/replay/rdbx.c:227-243 | The window check decides membership in the set of indices taken |
| `ReplayWindow.AddRemembers` | android/PhoneWebcam/app/src/main/cpp/external/libsrtp/crypto/replay/rdbx.c:253-270 | Shifting and setting a bit records exactly one more index |
| `SrtpSession.Session.Add` | android/PhoneWebcam/app/src/main/cpp/external/libsrtp/srtp/srtp.c:3253-3320 | Every outcome of srtp_stream_add: a stream at the end, a first template with its direction, or a refusal without effect |
| `SrtpSession.Session.InsertOrDealloc` | android/PhoneWebcam/app/src/main/cpp/external/libsrtp/srtp/srtp.c:516-527 | The stream is in the list, or released with nothing left of it |
| `SrtpSession.Session.Remove` | android/PhoneWebcam/app/src/main/cpp/external/libsrtp/srtp/srtp.c:3380-3405 | The first stream of that SSRC is gone and its own allocations with it |
| `SrtpSession.Session.Protect` | android/PhoneWebcam/app/src/main/cpp/external/libsrtp/srtp/srtp.c:2496-2821 | srtp_protect in place on a session: header check, stream found or cloned and marked as sender, then key, size, index and transform in the order of the source, with buffer, streams and status for every outcome |
| `SrtpSession.Session.Unprotect` | android/PhoneWebcam/app/src/main/cpp/external/libsrtp/srtp/srtp.c:2823-3175 | srtp_unprotect in place on a session: index and replay check before the key, authentication before the stream is touched, the clone only for a packet that passes |
| `SrtpSession.Session.UpdateTemplate` | android/PhoneWebcam/app/src/main/cpp/external/libsrtp/srtp/srtp.c:3506-3571 | Every stream carried over once, in order; or a refusal with the streams as they were, which leaks when it comes from the window; or, when the new list takes no more, the streams carried so far lost with it |
| `SrtpSession.Session.CarryAll` | android/PhoneWebcam/app/src/main/cpp/external/libsrtp/srtp/srtp.c:3546-3557 | The walk over the list, with the index and re-read size of the source, empties the list from inside its own callback: the index never moves and every stream is visited |
| `SrtpSession.Session.CarryFirst` | android/PhoneWebcam/app/src/main/cpp/external/libsrtp/srtp/srtp.c:3440-3489 | One callback: the stream leaves the list and enters the new one in its carried form, ownership of every allocation accounted for |
| `SrtpSession.Session.Reclone` | android/PhoneWebcam/app/src/main/cpp/external/libsrtp/srtp/srtp.c:3461-3486 | A clone of the old template is released and replaced by one of the new template with its index and RTCP replay state |
| `SrtpSession.Session.FreeStructOnly` | android/PhoneWebcam/app/src/main/cpp/external/libsrtp/srtp/srtp.c:3534-3538 | Freeing the block of a template whose initialisation failed leaves the rest of its allocations live and unreferenced |
| `SrtpSession.Session.UpdateStream` | android/PhoneWebcam/app/src/main/cpp/external/libsrtp/srtp/srtp.c:3573-3620 | The stream is removed and made anew with its index, or, when the window is refused then, removed |
| `SrtpSession.Session.ReleaseStreams` | android/PhoneWebcam/app/src/main/cpp/external/libsrtp/srtp/srtp.c:529-555 | The walk that deletes the current entry, with the index and re-read size of the source, releases every stream exactly once |
| `SrtpSession.Session.Dealloc` | android/PhoneWebcam/app/src/main/cpp/external/libsrtp/srtp/srtp.c:3216-3251 | Afterwards nothing is live but what refused updates had let go |
| `SessionMemory.AuthTellsClones` | android/PhoneWebcam/app/src/main/cpp/external/libsrtp/srtp/srtp.c:3449-3459 | The pointer test of the update callback tells clones of the template from other streams, both ways |
| `SessionMemory.RefsLive` | android/PhoneWebcam/app/src/main/cpp/external/libsrtp/srtp/srtp.c:380-514 | What the session holds covers every pointer of every stream |
| `StreamMemory.StreamDealloc` | android/PhoneWebcam/app/src/main/cpp/external/libsrtp/srtp/srtp.c:380-514 | Releases, each once, exactly the allocations that are not the template's |
| `StreamMemory.StreamAlloc` | android/PhoneWebcam/app/src/main/cpp/external/libsrtp/srtp/srtp.c:597-755 | A stream whose allocations are all new and all its own, without MKIs and replay window yet |
| `StreamMemory.StreamInit` | android/PhoneWebcam/app/src/main/cpp/external/libsrtp/srtp/srtp.c:1612-1719 | The window is refused with the stream as it was, or MKIs and replay window are added and the fields set |
| `StreamMemory.PolicyLimits` | android/PhoneWebcam/app/src/main/cpp/external/libsrtp/srtp/srtp.c:1673-1685 | The limits in numbers: 1 to 16 keys, MKIs of up to 128 octets, a window of 64 to 32767 or the default of 128; the window of 1024 that both ends ask for is taken as it is |
| `StreamMemory.StreamClone` | android/PhoneWebcam/app/src/main/cpp/external/libsrtp/srtp/srtp.c:765-866 | A stream that shares the template's objects and owns itself, its key block, its MKI copies and its replay bits |
| `StreamMemory.ApartOwns` | android/PhoneWebcam/app/src/main/cpp/external/libsrtp/srtp/srtp.c:380-514 | A stream that shares nothing with the template owns all it refers to |
| `StreamMemory.RefsOwned` | android/PhoneWebcam/app/src/main/cpp/external/libsrtp/srtp/srtp.c:380-514 | Every pointer of a stream is among what its release frees or is the template's |
| `UpdateMemory.TakeFirst` | android/PhoneWebcam/app/src/main/cpp/external/libsrtp/srtp/srtp.c:3449-3469 | Taking the first stream out of the list moves what it owns from the list's account to the side, nothing else |
| `UpdateMemory.CarryOn` | android/PhoneWebcam/app/src/main/cpp/external/libsrtp/srtp/srtp.c:3477-3486 | Putting the carried form into the new list re-establishes the update invariant |
| `StreamList.List.Insert` | android/PhoneWebcam/app/src/main/cpp/external/libsrtp/srtp/srtp.c:5227-5271 | Appends, doubling the buffer first when it is full; fails only when doubling would overflow, leaving the list as it was |
| `StreamList.List.Grow` | android/PhoneWebcam/app/src/main/cpp/external/libsrtp/srtp/srtp.c:5230-5260 | The doubled buffer has the same contents and the old one is released |
| `StreamList.List.Remove` | android/PhoneWebcam/app/src/main/cpp/external/libsrtp/srtp/srtp.c:5278-5293 | Takes out the first entry with the SSRC and moves the later ones down |
| `StreamList.List.Get` | android/PhoneWebcam/app/src/main/cpp/external/libsrtp/srtp/srtp.c:5295-5308 | Finds the first entry with the SSRC |
| `StreamList.InsertIsUpdate` | android/PhoneWebcam/app/src/main/cpp/external/libsrtp/srtp/srtp.c:5227-5271 | Seen as a map: appending a new SSRC adds one binding |
| `StreamList.RemoveIsMinus` | android/PhoneWebcam/app/src/main/cpp/external/libsrtp/srtp/srtp.c:5278-5293 | Seen as a map: removing takes away that binding and no other |
| `StreamList.WriteIsUpdate` | android/PhoneWebcam/app/src/main/cpp/external/libsrtp/srtp/srtp.c:3160-3170 | Seen as a map: writing a stream through its pointer rebinds its SSRC only |
| `AesKeys.AesInverse` | android/PhoneWebcam/app/src/main/cpp/external/libsrtp/crypto/cipher/aes.c:1517-1640 | For every key of 16 or 32 octets and every block, decryption under the decryption schedule undoes encryption, given that the structure came with the number of rounds of the key |
| `AesWitness.ZeroedStructureFails` | android/PhoneWebcam/app/src/main/cpp/external/libsrtp/crypto/cipher/aes.c:1523-1537 | With a zeroed structure, so that the count read is 0, the zero block under the zero key does not come back |
| `AesCipher.DecryptUndoesEncrypt` | android/PhoneWebcam/app/src/main/cpp/external/libsrtp/crypto/cipher/aes.c:2102-2160 | For every schedule, round count and block the equivalent inverse cipher undoes the cipher |
| `AesRounds.InvRoundUndoes` | android/PhoneWebcam/app/src/main/cpp/external/libsrtp/crypto/cipher/aes.c:1673-1696 | One table-driven inverse round takes back one round, with the round key through InvMixColumns |
| `AesRounds.TablesMix` | android/PhoneWebcam/app/src/main/cpp/external/libsrtp/crypto/cipher/aes.c:1648-1671 | Four T-table entries are MixColumns over SubBytes of a column |
| `AesRounds.InverseTablesMix` | android/PhoneWebcam/app/src/main/cpp/external/libsrtp/crypto/cipher/aes.c:1673-1696 | Four U-table entries are InvMixColumns over InvSubBytes of a column |
| `AesRounds.InverseTablesAfterSbox` | android/PhoneWebcam/app/src/main/cpp/external/libsrtp/crypto/cipher/aes.c:1613-1638 | The U tables after the S-box are InvMixColumns alone |
| `AesRounds.InvMixMix` | android/PhoneWebcam/app/src/main/cpp/external/libsrtp/crypto/cipher/aes.c:1613-1638 | InvMixColumns undoes MixColumns on every column |
| `AesRounds.InvMixColumnsAdds` | android/PhoneWebcam/app/src/main/cpp/external/libsrtp/crypto/cipher/aes.c:1613-1638 | InvMixColumns is linear, so it passes through the round key |
| `AesField.InvRowMixed` | android/PhoneWebcam/app/src/main/cpp/external/libsrtp/crypto/cipher/aes.c:1392-1400 | A row of the inverse matrix over a mixed column gives back the octet |
| `AesField.InvRowAdds` | android/PhoneWebcam/app/src/main/cpp/external/libsrtp/crypto/cipher/aes.c:1392-1400 | The inverse matrix row is linear over GF(2^8) |
| `AesField.XTimeAdds` | android/PhoneWebcam/app/src/main/cpp/external/libsrtp/crypto/cipher/aes.c:1399-1400 | Multiplication by x distributes over addition |
| `AesSbox.SboxInverse` | android/PhoneWebcam/app/src/main/cpp/external/libsrtp/crypto/cipher/aes.c:1177-1248 | The inverse substitution table undoes the substitution table on all 256 octets |
| `AesInversion.SboxIsInversion` | android/PhoneWebcam/app/src/main/cpp/external/libsrtp/crypto/cipher/aes.c:1177-1213 | Every entry of the substitution table is the affine map of section 5.1.1 of FIPS 197, bit by bit, of the inverse of its index in GF(2^8), or of 0 for 0 |
| `AesAnswer.CountingKeyEncrypts` | android/PhoneWebcam/app/src/main/cpp/external/libsrtp/crypto/cipher/aes.c:1445-1496 | The example of appendix C.3 of FIPS 197, worked out through all 14 rounds and 15 round keys |
| `AesWitness.ZeroKeyEncrypts` | android/PhoneWebcam/app/src/main/cpp/external/libsrtp/crypto/cipher/aes.c:1404-1443 | The zero block under the zero key of 128 bits gives the published 66E94BD4EF8A2C3B884CFA59CA342B2E |
| `AesCipher.AesRound` | android/PhoneWebcam/app/src/main/cpp/external/libsrtp/crypto/cipher/aes.c:1648-1671 | The table round in place is SubBytes, ShiftRows, MixColumns and AddRoundKey |
| `AesCipher.AesInvRound` | android/PhoneWebcam/app/src/main/cpp/external/libsrtp/crypto/cipher/aes.c:1673-1696 | The inverse table round in place is InvSubBytes, InvShiftRows, InvMixColumns and AddRoundKey |
| `AesCipher.AesFinalRound` | android/PhoneWebcam/app/src/main/cpp/external/libsrtp/crypto/cipher/aes.c:1698-1732 | The octet-by-octet final round is SubBytes, ShiftRows and AddRoundKey |
| `AesCipher.AesInvFinalRound` | android/PhoneWebcam/app/src/main/cpp/external/libsrtp/crypto/cipher/aes.c:1734-1768 | The octet-by-octet inverse final round is InvSubBytes, InvShiftRows and AddRoundKey |
| `AesKeys.ExpandedKey.Expand128` | android/PhoneWebcam/app/src/main/cpp/external/libsrtp/crypto/cipher/aes.c:1404-1443 | The round keys are the words of section 5.2 of FIPS 197 for a 16-octet key |
| `AesKeys.ExpandedKey.Expand256` | android/PhoneWebcam/app/src/main/cpp/external/libsrtp/crypto/cipher/aes.c:1445-1496 | The same for a 32-octet key |
| `AesKeys.ExpandedKey.ExpandEncryptionKey` | android/PhoneWebcam/app/src/main/cpp/external/libsrtp/crypto/cipher/aes.c:1498-1515 | Other key lengths are refused and leave the structure alone |
| `AesKeys.ExpandedKey.ExpandDecryptionKey` | android/PhoneWebcam/app/src/main/cpp/external/libsrtp/crypto/cipher/aes.c:1517-1642 | The schedule is turned round and mixed by the number of rounds the structure held on entry |
| `AesKeys.EvenIsReversed` | android/PhoneWebcam/app/src/main/cpp/external/libsrtp/crypto/cipher/aes.c:1530-1537 | With an even number of rounds the swap loop gives the schedule of section 5.3.5 of FIPS 197 |
| `AesKeys.ExpandedKey.Reverse` | android/PhoneWebcam/app/src/main/cpp/external/libsrtp/crypto/cipher/aes.c:1530-1537 | The swap loop: which round key ends where, for every count |
| `AesKeys.ExpandedKey.AesEncrypt` | android/PhoneWebcam/app/src/main/cpp/external/libsrtp/crypto/cipher/aes.c:2102-2130 | The unrolled rounds are the cipher for 10, 12 and 14 rounds and nine rounds without a final one otherwise |
| `AesKeys.ExpandedKey.AesDecrypt` | android/PhoneWebcam/app/src/main/cpp/external/libsrtp/crypto/cipher/aes.c:2132-2160 | The same for the inverse cipher |
| `AesKeys.NextKey128` | android/PhoneWebcam/app/src/main/cpp/external/libsrtp/crypto/cipher/aes.c:1413-1442 | One round key of the schedule from the one before |
| `AesKeys.NextKey256` | android/PhoneWebcam/app/src/main/cpp/external/libsrtp/crypto/cipher/aes.c:1456-1495 | One round key of the schedule from the two before |
| `UdpDelivery.FrameDelivered` | obs-plugin/phone-webcam-obs/src/udp-receiver.cpp:191-311 | Any order, duplicates and interleaving with other slots, for frames whose datagrams fit the receive buffer: a chunk's datagram makes the receiver return the frame exactly when it brings the last missing index, and then the original bytes |
| `UdpDelivery.DeliveredOnce` | obs-plugin/phone-webcam-obs/src/udp-receiver.cpp:191-311 | Such a frame all of whose chunks arrive is returned at exactly one step |
| `UdpBuffer.DeliveredIffFits` | obs-plugin/phone-webcam-obs/src/udp-receiver.cpp:196-311 | Whatever the slots hold, frames cut in a given way can be relied on to come back if and only if the longest datagram, header included, fits the 1500-octet receive buffer |
| `UdpBuffer.OversizeNeverIntact` | obs-plugin/phone-webcam-obs/src/udp-receiver.cpp:196-293 | With a longer chunk no step ever returns the frame, whatever arrives, unless the slot happens to hold the octet that is cut off |
| `UdpBuffer.OversizeDamaged` | obs-plugin/phone-webcam-obs/src/udp-receiver.cpp:196-311 | Two chunks of 2000 octets: a frame of 3484 octets with a hole of zeros, or none where the oversized read fails |
| `UdpDelivery.SentinelFrameLost` | obs-plugin/phone-webcam-obs/src/udp-receiver.cpp:141-150 | A frame whose sequence number is the start sentinel is lost on a fresh receiver; every other frame that fits is delivered |
| `UdpDelivery.CompletesOnce` | obs-plugin/phone-webcam-obs/src/udp-receiver.cpp:295-309 | If every index arrives there is exactly one completing step |
| `UdpDelivery.SlotAlong` | obs-plugin/phone-webcam-obs/src/udp-receiver.cpp:233-293 | What the slot holds at every step: the chunks arrived so far and nothing stale that counts |
| `UdpDelivery.SentFrameDelivered` | android/PhoneWebcam/app/src/main/java/phone/webcam/phonewebcam/network/UdpSender.kt:87-117 | End to end: when all datagrams of sendFrame get through, the original frame comes out once |
| `UdpDelivery.SendFrame` | android/PhoneWebcam/app/src/main/java/phone/webcam/phonewebcam/network/UdpSender.kt:87-117 | The datagrams sent are the serialized chunks, in order |
| `UdpDelivery.DatagramIsChunk` | android/PhoneWebcam/app/src/main/java/phone/webcam/phonewebcam/network/UdpSender.kt:91-110 | Each sent datagram is one the receiver takes for that chunk |
| `UdpReassembly.UdpReceiver.ReceiveFrame` | obs-plugin/phone-webcam-obs/src/udp-receiver.cpp:191-312 | One datagram in place, as far as it comes into the buffer: result and all eight slots as the step function says |
| `UdpReassembly.UdpReceiver.AcceptChunk` | obs-plugin/phone-webcam-obs/src/udp-receiver.cpp:261-311 | Consistency checks, placement and completion in place |
| `UdpReassembly.UdpReceiver.ResetSlot` | obs-plugin/phone-webcam-obs/src/udp-receiver.cpp:233-259 | A new sequence takes the slot over; its buffer only grows |
| `UdpReassembly.UdpReceiver.PlaceChunk` | obs-plugin/phone-webcam-obs/src/udp-receiver.cpp:280-293 | The chunk is copied once and counted once |
| `UdpReassembly.UdpReceiver.Start` | obs-plugin/phone-webcam-obs/src/udp-receiver.cpp:137-150 | Restarting leaves nothing of an earlier stream |
| `UdpReassembly.ParseSerialize` | obs-plugin/phone-webcam-obs/src/udp-receiver.cpp:212-228 | A serialized header is read back |
| `UdpWire.SlotTaken` | obs-plugin/phone-webcam-obs/src/udp-receiver.cpp:206-259 | A datagram takes over the slot of its frame number modulo 8, and no other, if and only if it has a whole header with 1 to 10000 chunks, an index below that and a stride of 1 to 65000 |
| `UdpWire.OtherCountIgnored` | obs-plugin/phone-webcam-obs/src/udp-receiver.cpp:270-278 | A datagram for a frame under way with another count of chunks changes nothing |
| `UdpWire.SentOctets` | android/PhoneWebcam/app/src/main/java/phone/webcam/phonewebcam/network/UdpSender.kt:87-117 | The octets of each sent datagram: frame number, count, index and 1400, least significant octet first, then its 1400 octets of the frame or what is left |
| `RtpBuffer.StreamArrives` | obs-plugin/phone-webcam-obs/src/rtp-receiver.cpp:194-345 | Over the socket: a loss-free stream of units, in any order, comes out as the frames it should, with nothing lost or left over, if and only if every packet fits the 8192-octet receive buffer |
| `RtpStreams.StreamDelivered` | obs-plugin/phone-webcam-obs/src/rtp-receiver.cpp:238-345 | A loss-free stream of single, fragmented and aggregated units, of any length and order, sequence numbers wrapping, comes out as the frames of the reference assembly: a frame ends at the marker and where a fragmented unit meets one under way; parameter sets wait for the next IDR unit |
| `RtpStreams.AccessUnitsDelivered` | obs-plugin/phone-webcam-obs/src/rtp-receiver.cpp:238-345 | The same stated for streams of access units: one group of frames for each, and no frame holds units of two |
| `RtpStreams.FramesAreCuts` | obs-plugin/phone-webcam-obs/src/rtp-receiver.cpp:286-292 | An access unit with its units in any order makes one more frame than it has fragmented units behind a unit that is not a parameter set; the frames together are the access unit, nothing dropped or moved, and their ends lie before those units |
| `RtpStreams.OneFrame` | obs-plugin/phone-webcam-obs/src/rtp-receiver.cpp:286-292 | An access unit makes exactly one frame if and only if no fragmented unit comes after a unit that is not a parameter set |
| `RtpStreams.OneFrameEach` | obs-plugin/phone-webcam-obs/src/rtp-receiver.cpp:286-292 | A stream has exactly one frame per access unit if and only if that holds of every access unit |
| `RtpStreams.LaterFragmentCuts` | obs-plugin/phone-webcam-obs/src/rtp-receiver.cpp:286-292 | A slice of one packet, then a slice in fragments: two frames |
| `RtpStreams.ParamsPrecedeIdr` | obs-plugin/phone-webcam-obs/src/rtp-receiver.cpp:256-314 | Exactly the parameter sets received since the last IDR unit stand, once and in order, immediately before the next one, for IDR slices in one packet or in fragments |
| `RtpStreams.EveryIdrServed` | obs-plugin/phone-webcam-obs/src/rtp-receiver.cpp:256-336 | Every IDR slice, aggregated ones included, has the waiting parameter sets immediately in front of it if and only if no STAP-A with an IDR slice comes while parameter sets wait |
| `RtpStreams.AggregatedIdrUnserved` | obs-plugin/phone-webcam-obs/src/rtp-receiver.cpp:326-336 | A parameter set, then an IDR slice in a STAP-A: the slice goes out without it |
| `RtpStreams.StreamConserves` | obs-plugin/phone-webcam-obs/src/rtp-receiver.cpp:254-345 | Every NAL unit sent is in exactly one frame, once, or is a parameter set still waiting |
| `RtpRoundTrip.UnitDelivered` | obs-plugin/phone-webcam-obs/src/rtp-receiver.cpp:254-345 | One unit, however it is packetized, is appended once |
| `RtpRoundTrip.UnitRecovered` | obs-plugin/phone-webcam-obs/src/rtp-receiver.cpp:238-345 | From any state at all - fragments begun, a frame under way, parameter sets waiting, another source - a unit whose packets all arrive stands behind what was there, or begins a frame, or waits, as its kind says, and begun fragments are dropped |
| `RtpRecovery.StreamRecovered` | obs-plugin/phone-webcam-obs/src/rtp-receiver.cpp:194-345 | Whatever packets came before, a stream that arrives whole is assembled behind the whole units the receiver still holds |
| `RtpRecovery.LossForgotten` | obs-plugin/phone-webcam-obs/src/rtp-receiver.cpp:194-345 | After a marker behind an IDR unit the frames are those of a receiver that lost nothing |
| `RtpRecovery.GapEnds` | obs-plugin/phone-webcam-obs/src/rtp-receiver.cpp:294-313 | A fragment that does not carry the next number of the unit under way gives that unit up, and nothing comes out |
| `RtpRecovery.OthersIgnored` | obs-plugin/phone-webcam-obs/src/rtp-receiver.cpp:252-340 | Empty payloads and payload types other than those handled change nothing but the source |
| `RtpRecovery.TruncatedAggregate` | obs-plugin/phone-webcam-obs/src/rtp-receiver.cpp:326-336 | An aggregate that is cut off gives the units before the cut |
| `RtpRoundTrip.LaterFragmentsSplit` | obs-plugin/phone-webcam-obs/src/rtp-receiver.cpp:286-292 | A fragmented unit that meets a frame under way sends it off at once and begins the next |
| `RtpBuffer.PacketsOfDatagrams` | obs-plugin/phone-webcam-obs/src/rtp-receiver.cpp:194-234 | The datagrams of some packets parse back into the packets if and only if all fit the receive buffer |
| `RtpBuffer.RunWeighs` | obs-plugin/phone-webcam-obs/src/rtp-receiver.cpp:238-345 | Whatever packets arrive, no more octets come out or stay behind than they bring |
| `RtpBuffer.LongSliceDamaged` | obs-plugin/phone-webcam-obs/src/rtp-receiver.cpp:194-202 | A slice in one packet longer than the buffer: a frame without its end, or none where the oversized read fails |
| `RtpLossSafety.FramesAreWhole` | obs-plugin/phone-webcam-obs/src/rtp-receiver.cpp:238-345 | Whatever arrives, every completed frame is a non-empty list of whole NAL units of one source, each a single-unit payload, a STAP-A element or a complete fragment chain of the packets that came out of the receive buffer |
| `RtpLossSafety.RunExplained` | obs-plugin/phone-webcam-obs/src/rtp-receiver.cpp:238-345 | The invariant behind it: frame buffer, waiting parameters and fragment state are explained by the packets received |
| `AnnexB.SplitJoin` | obs-plugin/phone-webcam-obs/src/rtp-receiver.cpp:169-174 | Splitting an Annex-B stream at start codes recovers exactly the NAL list, for units that obey emulation prevention |
| `AnnexB.NoStartInside` | obs-plugin/phone-webcam-obs/src/rtp-receiver.cpp:169-174 | No start code begins inside a well-formed unit, even across its end |
| `RtpDepacketizer.RtpReceiver.ReceiveFrame` | obs-plugin/phone-webcam-obs/src/rtp-receiver.cpp:188-349 | One call takes datagrams up to the first that is empty or refused; the state and all completed frames are those of the run over them, and the caller gets the last frame |
| `RtpDepacketizer.CallsCoverRun` | obs-plugin/phone-webcam-obs/src/rtp-receiver.cpp:194-206 | An empty datagram ends a call early but loses nothing: one call after the other is the run over all datagrams |
| `RtpDepacketizer.RunDatagramsIsRun` | obs-plugin/phone-webcam-obs/src/rtp-receiver.cpp:206-233 | Skipped datagrams leave no trace |
| `RtpDepacketizer.RtpReceiver.HandlePacket` | obs-plugin/phone-webcam-obs/src/rtp-receiver.cpp:203-250 | Validation, SSRC change and payload dispatch for one datagram |
| `RtpDepacketizer.RtpReceiver.HandlePayload` | obs-plugin/phone-webcam-obs/src/rtp-receiver.cpp:252-345 | One payload by NAL type, marker included |
| `RtpDepacketizer.RtpReceiver.HandleFragment` | obs-plugin/phone-webcam-obs/src/rtp-receiver.cpp:274-317 | One FU-A fragment: start, continuation, gap, end |
| `RtpDepacketizer.RtpReceiver.AppendStap` | obs-plugin/phone-webcam-obs/src/rtp-receiver.cpp:326-336 | The STAP-A loop appends exactly the elements that fit |
| `RtpDepacketizer.RtpReceiver.FlushFrame` | obs-plugin/phone-webcam-obs/src/rtp-receiver.cpp:341-345 | A non-empty frame is handed over and the buffer emptied |
| `RtpDepacketizer.RtpReceiver.Start` | obs-plugin/phone-webcam-obs/src/rtp-receiver.cpp:133-137 | Restarting drops everything half received |
| `RtpSender.RtpSender.SendNal` | android/PhoneWebcam/app/src/main/java/phone/webcam/phonewebcam/network/RtpSender.kt:81-96 | One NAL unit as its packets, with the marker on slices that end the frame |
| `RtpSender.RtpSender.SendFragmented` | android/PhoneWebcam/app/src/main/java/phone/webcam/phonewebcam/network/RtpSender.kt:159-204 | The fragment loop sends exactly the FU-A packets of the unit |
| `RtpSender.SentUnitCarriesNal` | android/PhoneWebcam/app/src/main/java/phone/webcam/phonewebcam/network/RtpSender.kt:81-96 | However it is sent, the unit carries the NAL itself and meets the demands of the round trip |
| `RtpSender.StartCodesStripped` | android/PhoneWebcam/app/src/main/java/phone/webcam/phonewebcam/network/RtpSender.kt:98-118 | A start code of four or of three octets is taken off, and nothing else |
| `RtpSender.RtpSender.SendAll` | android/PhoneWebcam/app/src/main/java/phone/webcam/phonewebcam/network/RtpSender.kt:81-204 | A run of calls sends exactly the datagrams of its units, with sequence numbers going on from call to call |
| `RtpSender.SentStreamDelivered` | android/PhoneWebcam/app/src/main/java/phone/webcam/phonewebcam/network/RtpSender.kt:81-204 | End to end: whatever NAL units the encoder hands over, without loss they come out in order, a frame ending with each slice that was marked last and where a unit that needed fragments meets a frame under way |
| `RtpWire.RtpOnWire` | android/PhoneWebcam/app/src/main/java/phone/webcam/phonewebcam/network/RtpSender.kt:125-157 | The twelve header octets of every datagram sent, in numbers |
| `RtpWire.RtpOffWire` | obs-plugin/phone-webcam-obs/src/rtp-receiver.cpp:206-247 | What is read of a received datagram, in numbers; short ones and other versions are skipped |
| `RtpWire.FragmentOctets` | android/PhoneWebcam/app/src/main/java/phone/webcam/phonewebcam/network/RtpSender.kt:159-204 | The two octets in front of each fragment, in numbers |
| `RtpWire.AggregateOctets` | obs-plugin/phone-webcam-obs/src/rtp-receiver.cpp:326-336 | The octets of a STAP-A payload: each unit behind its length |
| `RtpWire.FrameOctets` | obs-plugin/phone-webcam-obs/src/rtp-receiver.cpp:169-174 | A frame is its units, each behind 0, 0, 0, 1 |
| `RtpWire.EncodedDelivered` | android/PhoneWebcam/app/src/main/java/phone/webcam/phonewebcam/network/RtpSender.kt:81-204 | From the encoder to the frames: access units handed over unit by unit come out as the frames of each, one frame each if and only if no long unit follows a slice |
| `Sha256Stream.Sha256Ctx.Update` | obs-plugin/phone-webcam-obs/src/auth.h:87-99 | After any split into updates the context is the compression fold over the full blocks of the concatenation with its tail in the buffer |
| `Sha256Stream.Sha256Ctx.Final` | obs-plugin/phone-webcam-obs/src/auth.h:101-116 | Finishing gives SHA-256 of everything put in |
| `Sha256Stream.Sha256Ctx.Transform` | obs-plugin/phone-webcam-obs/src/auth.h:69-85 | The 64-round loop on eight working variables is the compression function of section 6.2.2 of FIPS 180-4 |
| `Sha256Stream.Sha256Ctx.Schedule` | obs-plugin/phone-webcam-obs/src/auth.h:71-75 | The message schedule loop |
| `Sha256Stream.LastBlock` | obs-plugin/phone-webcam-obs/src/auth.h:102-111 | With fewer than 56 octets left one padded block completes the hash of section 5.1.1 |
| `Sha256Stream.LastTwoBlocks` | obs-plugin/phone-webcam-obs/src/auth.h:102-111 | With 56 or more octets left two padded blocks do |
| `Sha256.PadZerosLeast` | obs-plugin/phone-webcam-obs/src/auth.h:103-105 | The number of zeros is the least that fills whole blocks |
| `Sha256Answer.HashOfAbc` | obs-plugin/phone-webcam-obs/src/auth.h:69-116 | SHA-256 of "abc" is the published digest, worked out through all 64 rounds |
| `Sha256Constants.RoundConstantIsRoot` | obs-plugin/phone-webcam-obs/src/auth.h:32-44 | Every round constant is the first 32 bits of the fraction of the cube root of its prime |
| `Sha256Constants.InitialIsRoot` | obs-plugin/phone-webcam-obs/src/auth.h:60-64 | Every initial word is the first 32 bits of the fraction of the square root of its prime |
| `Sha256.LengthOctets` | obs-plugin/phone-webcam-obs/src/auth.h:101-111 | The last eight octets are the length in bits, most significant first |
| `Auth.HmacSha256` | obs-plugin/phone-webcam-obs/src/auth.h:124-151 | Three streaming contexts compute the HMAC of section 2 of RFC 2104 for every key length |
| `Auth.HmacIs` | obs-plugin/phone-webcam-obs/src/auth.h:124-151 | RFC 2104 octet by octet: key and zeros with 0x36 added before the inner hash and 0x5c before the outer, a key longer than 64 octets replaced by its hash |
| `Bytes.XorAt` | obs-plugin/phone-webcam-obs/src/auth.h:136-143 | Adding octets is adding their bits without carry |
| `Auth.PadKey` | obs-plugin/phone-webcam-obs/src/auth.h:128-135 | Keys longer than a block are hashed first |
| `Auth.ToHex` | obs-plugin/phone-webcam-obs/src/auth.h:153-158 | The loop gives the lower-case hexadecimal text |
| `Auth.Digits` | obs-plugin/phone-webcam-obs/src/auth.h:153-175 | Which character stands for which digit, capital letters included |
| `Auth.FromHex` | obs-plugin/phone-webcam-obs/src/auth.h:160-175 | The loop gives the octets, or nothing for text that is not hexadecimal |
| `Auth.UnhexHex` | obs-plugin/phone-webcam-obs/src/auth.h:153-175 | Decoding what was encoded gives the octets back |
| `Auth.HexUnhex` | obs-plugin/phone-webcam-obs/src/auth.h:153-175 | Encoding what was decoded gives lower-case text back |
| `Auth.ConstTimeEqual` | obs-plugin/phone-webcam-obs/src/auth.h:177-182 | The accumulated difference decides equality |
| `Handshake.HandleMessage` | obs-plugin/phone-webcam-obs/src/handshake-server.cpp:125-205 | The accept or reject decision for one received buffer |
| `Handshake.Find` | obs-plugin/phone-webcam-obs/src/handshake-server.cpp:31-32 | The first match at or after a position, or none |
| `HandshakeJson.GenuineRequestAccepted` | obs-plugin/phone-webcam-obs/src/handshake-server.cpp:130-204 | Every flat request object that fits the buffer, in any field order, with its own HMAC, a salt and a timely or absent timestamp is accepted |
| `HandshakeJson.FlatRequestDecided` | obs-plugin/phone-webcam-obs/src/handshake-server.cpp:130-204 | With a password set, a flat request object that fits the buffer is accepted if and only if its fields hold a challenge, the HMAC of that challenge, a salt and no number outside the time window, wherever they stand and whatever else there is |
| `HandshakeJson.OtherFieldsFree` | obs-plugin/phone-webcam-obs/src/handshake-server.cpp:130-204 | The HMAC covers the challenge alone: from an accepted request, every flat request with its challenge and HMAC, any non-empty salt and a timestamp in the window or none is accepted as well |
| `HandshakeJson.AcceptedIsAuthentic` | obs-plugin/phone-webcam-obs/src/handshake-server.cpp:150-199 | Whatever is accepted with a password set carries the HMAC of the challenge it carries, a salt and no timestamp outside the window |
| `HandshakeJson.GetStringFinds` | obs-plugin/phone-webcam-obs/src/handshake-server.cpp:28-38 | First-match extraction returns the value of that field, whatever the other fields hold |
| `HandshakeJson.GetLongFinds` | obs-plugin/phone-webcam-obs/src/handshake-server.cpp:40-46 | The same for an integer field |
| `HandshakeJson.GetLongMissing` | obs-plugin/phone-webcam-obs/src/handshake-server.cpp:40-46 | A field that is not there reads as -1 |
| `HandshakeJson.FreshIs` | obs-plugin/phone-webcam-obs/src/handshake-server.cpp:176-187 | A timestamp counts from 30 seconds ago to 5 seconds ahead; what is not positive counts as none |
| `HandshakeJson.DecimalRead` | obs-plugin/phone-webcam-obs/src/handshake-server.cpp:40-46 | Decimal text is read as its number |
| `Handshake.AtollReads` | obs-plugin/phone-webcam-obs/src/handshake-server.cpp:40-46 | The six white-space characters are skipped, a sign is taken, and the number ends before the first other character |
| `Handshake.UntilNulIs` | obs-plugin/phone-webcam-obs/src/handshake-server.cpp:118-125 | The message ends before the first NUL octet |
| `DnsName.ReadDnsName` | obs-plugin/phone-webcam-obs/src/mdns-discovery.cpp:58-89 | Terminates on every packet, reads inside it, never moves the offset back or past the end, and equals the step-limited reading function |
| `DnsName.ReadNameMeans` | obs-plugin/phone-webcam-obs/src/mdns-discovery.cpp:58-89 | Every name that needs at most 64 steps reads as its meaning in section 4.1.4 of RFC 1035, pointers included |
| `DnsName.ReadWritten` | obs-plugin/phone-webcam-obs/src/mdns-discovery.cpp:28-41 | Reading what was written returns any name of up to 64 non-empty labels of up to 191 octets, anywhere in a packet, and lands just after it exactly when it has fewer than 64 labels |
| `DnsName.WriteDnsName` | obs-plugin/phone-webcam-obs/src/mdns-discovery.cpp:28-41 | The split-at-dots loop appends the specified encoding |
| `DnsName.TooManyLabels` | obs-plugin/phone-webcam-obs/src/mdns-discovery.cpp:65-84 | With more labels than steps the reader stops inside the name |
| `DnsMessage.WellFormedWalk` | obs-plugin/phone-webcam-obs/src/mdns-discovery.cpp:268-379 | Every well-formed response, received as far as it comes into the 4096-octet buffer: the walk skips the questions and visits, of the first (ANCOUNT + ARCOUNT) mod 2^16 records, exactly those whose data begins inside the buffer, in order, at their true boundaries, with their type, class and data and the owner their name stands for |
| `DnsMessage.WalkIsComplete` | obs-plugin/phone-webcam-obs/src/mdns-discovery.cpp:268-307 | The walk sees every record with all its data if and only if the message fits the buffer and has no authority section |
| `DnsMessage.LongResponseLost` | obs-plugin/phone-webcam-obs/src/mdns-discovery.cpp:268-307 | A well-formed response of 400 address records: 272 are seen, or none where the oversized read fails |
| `DnsMessage.NameRead` | obs-plugin/phone-webcam-obs/src/mdns-discovery.cpp:58-89 | Reading goes on just after an encoded name, whatever its pointer leads to, and gives the labels of the name followed by those its pointer leads to |
| `DnsMessage.NameMeans` | obs-plugin/phone-webcam-obs/src/mdns-discovery.cpp:58-89 | Those labels are the meaning of the name in section 4.1.4 of RFC 1035 |
| `DnsMessage.CutName` | obs-plugin/phone-webcam-obs/src/mdns-discovery.cpp:58-89 | A name that is cut off is read to the end of the message, or to half a pointer before it |
| `DnsMessage.MeaningOfLabels` | obs-plugin/phone-webcam-obs/src/mdns-discovery.cpp:58-89 | Labels before a pointer go in front of the name it leads to |
| `DnsWalk.WalkReports` | obs-plugin/phone-webcam-obs/src/mdns-discovery.cpp:302-379 | What is reported depends only on each A or PTR record and the latest SRV record before it |
| `DnsWalk.HandleDatagram` | obs-plugin/phone-webcam-obs/src/mdns-discovery.cpp:268-379 | One turn of the receive loop on a datagram of any length |
| `DnsWalk.HandleMessage` | obs-plugin/phone-webcam-obs/src/mdns-discovery.cpp:283-379 | The loops on one received message do what folding over the visited records says |
| `DnsWalk.HandleRecord` | obs-plugin/phone-webcam-obs/src/mdns-discovery.cpp:323-375 | One record: follow-up query, service data or callback |
| `DnsWalk.QueryNamesTarget` | obs-plugin/phone-webcam-obs/src/mdns-discovery.cpp:333-348 | The follow-up question names the instance it is sent for |
| `DnsWalk.ServiceTypeText` | obs-plugin/phone-webcam-obs/src/mdns-discovery.cpp:22-22 | The service type is the text "_phonewebcam._udp.local" |
| `DnsService.ResponseReported` | obs-plugin/phone-webcam-obs/src/mdns-discovery.cpp:268-379 | End to end from fields to reports: of a well-formed response that fits the buffer, made of PTR, SRV, A and other records, exactly those services are reported that the fields name, with address octets, host and port, and exactly those questions sent |
| `DnsService.AskedIff` | obs-plugin/phone-webcam-obs/src/mdns-discovery.cpp:333-348 | The question sent for an instance is the SRV question for its name if and only if no label of the name holds a dot |

## Left out

- Sockets, `select`, timeouts, threads, logging and name resolution: received datagrams and the clock are
  parameters, sent ones are results.
- The ciphers and authentication functions inside SRTP are parameters: a keystream per SSRC and packet index, a
  MAC as a function of keystream prefix, octets and rollover counter, and an AEAD cipher that opens what it sealed
  and changes lengths by the tag. A counter-mode cipher's limit on keystream per packet lies beyond any RTP packet
  and is not modelled.
- Key usage limits and events have no effect. The rollover counter is never set from outside in a run of calls,
  though `ReplayWindow.TakeIndex` covers streams for which it was. The replay window is a sequence of bits, not of
  32-bit words. The RTCP replay database is a number a stream carries.
- SrtpAead.AeadRoundTrip: not for header-extension encryption combined with Cryptex, because the receiver then walks
  an extension whose length it takes from a CSRC.
- SrtpAeadInPlace.UnprotectAeadInPlace: not for that combination either, for the same reason; a session's AEAD
  streams do not have it.
- Out-of-place unprotect, and out-of-place protect beyond the Cryptex transform itself; SRTCP; key derivation.
- SrtpBuffers.CryptexOutOfPlace: covers the Cryptex octets from one buffer to another, not the rest of
  `srtp_protect` with two buffers.
- Allocation failure: allocations succeed. A full stream list and refused policies are modelled.
- `SrtpSession` keeps streams as values named by their allocation; writing through a stream pointer is writing that
  list entry. The list entry array itself grows, shifts and is walked in place. The replay state of a clone is
  written before it enters the new list, not after.
- AesKeys.AesInverse: asks for the number of rounds that matches the key, as the source reads it before setting it.
  Whether some other number could serve some key is not decided: that would need the differences of two schedules
  to cancel over all rounds.
- The AES tables T0 to T3 and U0 to U3 are their generating formulas over the substitution tables, a word being its
  four octets in little-endian order; the CPU_CISC variant is the one modelled.
- RtpStreams.StreamDelivered: RTP headers without CSRCs, extension or padding, as the phone sends them; the
  receiver strips twelve octets whatever the header says.
- Depacketizer and sender without their SRTP session: a datagram that does not decrypt is one that did not arrive.
- `atoll` beyond the range of a long long, where C leaves the result undefined.
- The debounce and address lookup after the record walk, which depend on the clock and the resolver; octets of the
  receive buffer behind the received ones are a parameter.
- PBKDF2, AES-GCM back ends, JNI, decoders, the OBS source, the Android user interface.
