# Bluetooth tools: what their core promises

This project models the parts of the repository that carry its protocol and arithmetic logic
and proves what they are for. Everything is plain Dafny; `dafny verify dfyconfig.toml` checks
it all.

The parts, hardest first:

* **Firmware update** (`DfuModel`, `DfuControl`, `DfuClient`, `DfuSystem`, `DfuRuns`,
  `DfuProgress`, `Crc32`, `ByteRing`). The client is a class over a byte ring that refines a
  value-level state machine; the peer of the Windows dongle is the other end; the two are
  joined by in-order channels. Over every run in which each object is sent from its start:
  nothing but success is ever reported, only after both objects were executed whole; the
  peer's state plus what is on its way is always the client's state; and a measure bounds
  every run.
* **Updates against any peer** (`DfuReports`, `DfuScript`, `DfuTally`). Runs of arbitrary
  notifications and grants: which statuses are reported, in which order what is asked for, and
  what the packets in between add up to, byte by byte.
* **Resuming an update** (`DfuEcho`, `DfuPace`, `DfuResume`, `DfuResumeSteps`, `DfuOutcome`,
  `DfuResumeCases`). What becomes of an object whose SELECT answer matches: step by step the
  transfer follows a fresh one of the recorded size, and in every run it hangs, is executed or
  is given up on exact conditions on what it starts from.
* **Legacy pairing** (`SmpCrypto`, `SmpModel`, `Smp`, `SmpSystem`, `SmpSteps`, `SmpRuns`,
  `SmpRandoms`). Two hosts, each with a controller that answers encryptions whenever it likes.
  In every interleaving both hosts send exactly one fixed list of messages and commands, made
  from the random values drawn when their first messages came.
* **CCM** (`Bytes`, `Cuttings`, `Rfc3610`, `CbcMac`, `CbcStream`, `CounterField`,
  `CtrStream`, `CcmState`, `CcmStart`, `Ccm`, `CcmRuns`, `CcmBytes`, `LinkLayer`). The streaming context,
  cut into calls in any way and with either set of loops in each call, computes sections 2.2
  to 2.5 of RFC 3610.
* **CMAC** (`ByteBits`, `GfDouble`, `Rfc4493`, `Cmac`). Section 2.4 of RFC 4493, and the exact
  condition under which a message may be given in several calls.
* **L2CAP** (`L2capModel`, `L2capFragments`, `L2cap`, `AclModel`, `AclReceiver`, `AclRoom`,
  `AclFraming`, `AclBits`, `AclRoundTrip`). The send queue, its fragments, and the reassembly buffer, end to end.
* **Hash map** (`Options`, `HashTable`, `HashCapacity`, `HashModel`, `HashGrowth`,
  `HashForever`, `HashMap`, `HashLoss`, `HashNever`). Probing, put and rehash, which call each
  other, against functions on the slots and against an abstract map; when a put fails, with
  some memory or with any, and when it loses bindings.
* **CRC-24, whitening, SHA-256** (`WordBits`, `Crc24Step`, `Crc24`, `Crc24Table`, `Whitening`,
  `Sha256Spec`, `Sha256`). The table, the byte-wide shift register and the streaming buffer
  against the bit-serial registers and the padding of the standards; `CheckValues` holds
  published values of theirs.
* **Characteristic discovery** (`AttModel`, `AttServer`, `AttProps`, `Discovery`). Server and client loop
  together.

How to read it: a source file that updates state is a class or an in-place method; its
contract ties the new state to a specification function or predicate, and lemmas about that
function carry the properties. AES is an arbitrary function from a key and a block to a block;
SHA-256's compression of one block is an arbitrary function too. Where a loop set is chosen by
the alignment of addresses, the choice is nondeterministic. Callbacks, random numbers and the
order of events are parameters.

Where the code does not do what its documentation or callers expect, the code is followed:

* `bt_encrypt/alg/ccm.h:85-94` says that computing a tag may give RETURN_WARN for
  authentication only; no path of the code does, and `Ccm.Context.ComputeTag` says which
  values it gives.
* `parse_protocol2/hashmap.h:52-55` says that a put gives MAP_OK or runs out of memory. It
  does, but there are puts that no amount of memory helps. In a table larger than every hash a
  put fails with any amount if and only if all 8 slots of the key's chain hold other keys,
  because a bigger table puts every key back into its own slot (`HashGrowth.FlatFailsIff`). In
  any other table it does so if and only if it fails with allocations enough to make the table
  larger than every hash (`HashMap.HashMap.FailsForEver`). More than w + 7 keys of w
  neighbouring hash values are a sufficient condition (`HashCapacity.WindowCapacity`), as are
  nine keys of one (`HashCapacity.NinthKey`), but not a necessary one: in `HashNever.NeverFits`
  nine keys that are not too many in that sense never fit.
* A put that runs out of memory loses bindings if and only if the last table it allocated could
  not take what was moved into it (`HashModel.Sheds`, in the contract of `HashMap.HashMap.Put`).
  `HashLoss.LosesBinding` is a run in which that happens; in a table larger than every hash it
  never does (`HashGrowth.FlatKeeps`).
* The size byte of a read-by-type response is wrong for a 16-bit characteristic that is
  declared by the very last handle asked for, and the client then miscounts;
  `AttServer.SizeByteRight` gives the exact condition and `AttServer.LastHandleFails` an
  input. Discovery asks up to 0xFFFF and never meets it.
* Going on from the peer's offset (`easyBtHostDFU/dfu_client.c:332-344`) enters the sending
  loop without setting up the object: the client sends the object from its first byte but
  counts on from the recorded offset. `DfuOutcome.ResumeOutcome` says what follows in every
  run. With nothing recorded, or when the count agrees with the peer's but passes the recorded
  size between two requests for the CRC (`DfuResume.Hangs`), the sending loop turns for ever;
  when it meets the size at a request, the peer executes what it had followed by the object's
  first bytes, and the client takes that for success. That is the right object only if the
  recorded size is its own and its end equals its start (`DfuResumeCases.LandedIsObject`).
  `DfuResumeCases` has an input for each case. The theorems about fresh runs assume, through `DfuRuns.Ready`, that no answer to
  SELECT matches; `DfuProgress.SizesDiffer` gives a condition a caller can check.
* A CMAC context given a message in two calls goes wrong exactly when the second is not empty,
  starts at a positive multiple of 16, and the cipher does not happen to fix the open block
  (`Rfc4493.TwoCalls`). For any number of calls `Rfc4493.TagRightIff` gives the exact
  condition: one such call alone is wrong on the same condition (`Rfc4493.OneAlignedCall`),
  while two can cancel (`Rfc4493.FlipCancels`).
* The reassembly buffer of `easyBtHost/eb_hci.c:33` is safe from overflow by continuing
  fragments if and only if first fragments announce a length between what they carry and 247
  (`AclRoom.FirstRoomyIff`, `AclRoom.StaysWithinIff`); the code does not check it.

## Model

| member | source | states |
|---|---|---|
| DfuClient.Dfu.WriteState | easyBtHostDFU/dfu_client.c:144-196 | Entered with something to send, or without credits, the sending loop over the ring ends, and does what the model's loop does, packet by packet |
| DfuClient.Dfu.Recv | easyBtHostDFU/dfu_client.c:287-355 | The handling of every notification, over the ring, is the model's, answers that resume a transfer included unless the client hangs on them |
| DfuClient.Dfu.CanSend | easyBtHostDFU/dfu_client.c:357-374 | A credit grant resumes exactly the state that waited for credits |
| DfuClient.Dfu.Start | easyBtHostDFU/dfu_client.c:264-275 | Starts an update only when idle, with the command object first and packets no longer than the link allows |
| DfuClient.Dfu.GetCrcByOffset | easyBtHostDFU/dfu_client.c:218-235 | The chunked loop is the model's, for whatever lengths the callback gives |
| DfuControl.CrcByOffsetIsPrefixCrc | easyBtHostDFU/dfu_client.c:218-235 | For any non-zero chunk lengths it is the CRC of the whole prefix |
| DfuControl.CrcByOffsetOrNothing | easyBtHostDFU/dfu_client.c:218-235 | For any callback it is that, unless the callback came back empty-handed, and then 0 |
| DfuControl.RecvSound | easyBtHostDFU/dfu_client.c:287-355 | Every notification that does not resume a transfer keeps the client's invariant: sent bytes are a prefix of the object, the running CRC is theirs, the ring holds the bytes that follow, and no more credits are spent than there are |
| DfuControl.RecvSteady | easyBtHostDFU/dfu_client.c:287-355 | Every notification, resuming ones included, keeps the ring in order and spends no more credits than there are |
| DfuControl.FreezesIff | easyBtHostDFU/dfu_client.c:305-344 | On an answer that resumes or goes on behind a transfer the sending loop turns for ever if and only if there are credits, nothing is queued and nothing is left to fetch |
| DfuControl.JamsIff | easyBtHostDFU/dfu_client.c:357-362 | The same for a grant of credits in the writing state |
| DfuControl.CanSendSound | easyBtHostDFU/dfu_client.c:357-374 | Every grant keeps the invariant of fresh transfers too |
| DfuModel.FetchFits | easyBtHostDFU/dfu_client.c:155-167 | A fetch never exceeds the ring's free space |
| DfuModel.NeverEndsIff | easyBtHostDFU/dfu_client.c:144-196 | From any queue in order the loop goes on for ever if and only if it is entered with credits and nothing to do |
| DfuModel.LoopKeeps | easyBtHostDFU/dfu_client.c:144-196 | The loop sends a gapless run of the object within its credits, asks for the CRC only after sending, and with credits and a feeding callback sends something |
| DfuSystem.ToPeerKeeps | win_bt_dongle_nordic_dfu/main.c:67-95 | Delivering a packet to the peer keeps the joint invariant |
| DfuSystem.ToClientKeeps | easyBtHostDFU/dfu_client.c:287-355 | Delivering a response to the client keeps it |
| DfuSystem.GrantKeeps | easyBtHostDFU/dfu_client.c:357-374 | Granting credits keeps it |
| DfuSystem.CrcAgrees | easyBtHostDFU/dfu_client.c:238-256 | Whenever a CRC answer reaches the client it matches offset and CRC, and the peer has received exactly that prefix |
| DfuRuns.Safety | easyBtHostDFU/dfu_client.c:258-323 | In every run of an update, whatever updates came before, it never reports a CRC mismatch, reports success at most once, and only after the peer executed exactly the command object and then exactly the image |
| DfuRuns.InTransit | win_bt_dongle_nordic_dfu/main.c:67-70 | In every reachable state from the first data packet of an object to its execution, peer offset plus bytes on their way is the client's offset, what the peer has received and those bytes are the object's prefix, and the peer's CRC extended by them is the client's |
| DfuProgress.RunBound | easyBtHostDFU/dfu_client.c:144-374 | Every useful step lowers a measure, so a run has at most as many as its measure |
| DfuProgress.UsefulExists | easyBtHostDFU/dfu_client.c:357-374 | Until the update is done some useful step is possible |
| DfuProgress.CanFinish | easyBtHostDFU/dfu_client.c:287-374 | From every reachable state useful steps alone lead to the end |
| DfuProgress.Completion | easyBtHostDFU/dfu_client.c:316-323 | A run with that many useful steps has ended in success with both objects executed |
| DfuProgress.WithinCredits | easyBtHostDFU/dfu_client.c:96-205 | Between two grants packets sent plus credits left is constant |
| DfuProgress.SizesDiffer | win_bt_dongle_nordic_dfu/main.c:11 | If neither object has the size this peer reports, no answer ever matches |
| DfuReports.RecvReports | easyBtHostDFU/dfu_client.c:287-355 | For every notification the statuses reported are: its own status if that is not 1; 0x81 for a CRC answer that differs from the client's offset or CRC; 1 for a success answer to EXECUTE of the image; and none otherwise. What is asked for next depends on the state reached |
| DfuReports.ErrorReported | easyBtHostDFU/dfu_client.c:291-294 | An error answer is reported with its own status, ends the update and sends nothing |
| DfuReports.RunReports | easyBtHostDFU/dfu_client.c:287-374 | Over any run of notifications and grants exactly those are reported, in order |
| DfuReports.SuccessMeans | easyBtHostDFU/dfu_client.c:258-374 | Whatever a peer answers, an update reports success at most once, and then EXECUTE was asked for twice and the client is idle with the image |
| DfuScript.UpdateScripted | easyBtHostDFU/dfu_client.c:96-205 | Whatever a peer answers without resuming a transfer, the requests sent are a first part of eight fixed ones, with their types, lengths and notification count, and as many as the state says |
| DfuScript.BusyStays | easyBtHostDFU/dfu_client.c:266-268 | Starting again leaves a running update as it is |
| DfuTally.UpdateAdds | easyBtHostDFU/dfu_client.c:144-196 | In such runs every data packet is as long as the link allows, 247 bytes at most, or ends its object; the progress events are those of the bytes sent; and when EXECUTE is asked for, the bytes since CREATE are the object, of the length CREATE told |
| DfuEcho.StWriteMirrors | easyBtHostDFU/dfu_client.c:144-196 | Whatever offset and CRC are recorded, the sending loop does the same as for a fresh object of the recorded size, with offset and CRC counted on from the recorded ones |
| DfuPace.LoopPaced | easyBtHostDFU/dfu_client.c:186-192 | While data remains, the CRC is asked for only at multiples of the packet length and the packet count; a transfer whose count is the recorded size at one of them never steps over it |
| DfuResumeSteps.EchoAnswer | easyBtHostDFU/dfu_client.c:300-315 | A CRC answer to a resumed transfer executes the object, hangs the client, ends the update with a mismatch, or continues beside the fresh transfer |
| DfuOutcome.ResumeOutcome | easyBtHostDFU/dfu_client.c:324-344 | For every recorded size, offset and CRC, every peer and every run after a matching answer: the client hangs only if nothing is recorded, or its count agrees with the peer's but is the recorded size at no request for the CRC; it gets past the object only if not; then the peer executed what it had followed by the object's first bytes and that counts as success, or the counts disagree and a mismatch is reported; with a callback that feeds it, one or the other happens within 8 * size + 52 useful steps |
| DfuOutcome.ResumingForward | easyBtHostDFU/dfu_client.c:287-374 | Every step of a resumed transfer keeps it beside the fresh one, decides it or hangs, on those conditions, and every useful one lowers what is left |
| DfuOutcome.CanDecide | easyBtHostDFU/dfu_client.c:287-374 | Useful steps alone lead to the decision or the hang |
| DfuOutcome.ImageFollows | easyBtHostDFU/dfu_client.c:316-322 | After a resumed command object, right or not, the update goes on as a fresh one unless the peer's answer for the image matches: when it ends, success is reported and the image was executed behind what was executed as the command object |
| DfuResumeCases.AnswerMatches | easyBtHostDFU/dfu_client.c:332-337 | With a callback that always gives something, an answer that tells the object's size and the CRC of a non-empty prefix matches |
| DfuResumeCases.ResumesIff | easyBtHostDFU/dfu_client.c:324-344 | Byte by byte, an answer resumes if and only if its size is the object's, its offset is not 0 and its CRC is that of so many bytes of the object |
| DfuResumeCases.AnswerForks | win_bt_dongle_nordic_dfu/main.c:73-78 | Whatever this peer answers to SELECT starts a new transfer, is a match of that kind, or makes the client read past its object |
| DfuResumeCases.LandedIsObject | easyBtHostDFU/dfu_client.c:338-341 | What is executed after a resumed transfer is the object if and only if the recorded size is its own and the bytes from the recorded offset on are those it starts with |
| DfuResumeCases.HangsAtOnce | easyBtHostDFU/dfu_client.c:332-341 | A client with nothing recorded, and an answer that matches |
| DfuResumeCases.HangsLater | easyBtHostDFU/dfu_client.c:332-341 | A client with half an object recorded, and an answer that matches, whose count passes the recorded size |
| DfuResumeCases.WrongBytesSucceed | easyBtHostDFU/dfu_client.c:332-341 | A client and an answer after which the first half of the image is executed twice and taken for success |
| Crc32.Compute | win_bt_dongle_nordic_dfu/bt.h:15-24 | The nested loop is the bit-serial CRC continued from its seed; client and peer share it |
| Crc32.CrcConcat | easyBtHostDFU/dfu_client.c:207-216 | The CRC of a concatenation is the CRC of the second part seeded with that of the first |
| Crc32.CrcInjective | easyBtHostDFU/dfu_client.c:207-216 | The same bytes never make two different CRCs agree |
| CheckValues.CrcOfDigits | win_bt_dongle_nordic_dfu/bt.h:15-24 | The CRC-32 of the digits 1 to 9 is the published 0xCBF43926 |
| ByteRing.Ring.Push | easyBtHostDFU/dfu_client.c:51-60 | Appends to the ring's contents across the end of the buffer |
| ByteRing.Ring.Pop | easyBtHostDFU/dfu_client.c:61-69 | Takes from the front across the end of the buffer |
| ByteRing.PushWindow | easyBtHost/eb_l2cap.c:65-73 | The two copies and the masked index are an append, at whatever place |
| ByteRing.PopWindow | easyBtHost/eb_l2cap.c:74-82 | The two copies and the masked index are a take, at whatever place |
| SmpCrypto.ConfirmInTwo | easyBtHost/eb_smp.c:72-133 | The two little-endian encryptions a host asks its controller for make up c1 of section 2.2.3 of Vol 3 Part H, for any key |
| SmpCrypto.StkInOne | bt_encrypt/bt_encrypt.c:145-156 | Encrypting the initiator's then the responder's first eight random bytes gives the toolbox's short term key |
| SmpCrypto.LegacyConfirmInto | bt_encrypt/bt_encrypt.c:157-169 | The toolbox's confirm value is what the two controller encryptions give |
| SmpCrypto.StkInto | bt_encrypt/bt_encrypt.c:145-156 | The toolbox's key is what the one controller encryption gives |
| SmpCrypto.C1Into | bt_encrypt/bt_encrypt.c:51-68 | The in-place xors and encryptions are c1 |
| Smp.Pairing.Handle | easyBtHost/eb_smp.c:135-200 | New state, buffer and what is sent, for every message, role and state |
| Smp.Pairing.Encrypted | easyBtHost/eb_smp.c:72-117 | The same for a finished encryption, with the completion handler of easyBtHost/eb_hci.c:228-235; without a pending callback nothing happens |
| Smp.Pairing.CalculateConfirm | easyBtHost/eb_smp.c:119-133 | Address types by role, xor with the random value, and an encryption asked for unless one is pending |
| Smp.Pairing.HciEncrypt | easyBtHost/eb_hci.c:214-226 | Refused, sending nothing, while an encryption is pending |
| Smp.Pairing.GetLtk | easyBtHost/eb_smp.c:202-212 | Handles the controller's request exactly after the random values were exchanged |
| Smp.Pairing.Auth | easyBtHost/eb_smp.c:233-246 | A pairing request as initiator, a security request as responder |
| SmpSteps.StepMoves | easyBtHost/eb_smp.c:72-212 | In every reachable state every message delivery, finished encryption or key request moves exactly one host on by one phase and keeps the joint invariant |
| SmpSteps.SomethingHappens | easyBtHost/eb_smp.c:72-212 | Until both hosts have their key, some event is possible: no interleaving deadlocks |
| SmpRuns.Interleavings | easyBtHost/eb_smp.c:72-246 | In every interleaving, at every moment, each host has sent a first part of one fixed list of messages and commands |
| SmpRuns.Completion | easyBtHost/eb_smp.c:72-246 | A pairing stops if and only if 13 events have happened; then both lists are complete and both hosts are ready for another pairing |
| SmpRuns.OneConfirmOneKey | easyBtHost/eb_smp.c:65-117 | Each host sends at most one confirm value, the toolbox's for its own random value; both give their controllers the toolbox's key of the same two random values; each exactly once when done |
| SmpRandoms.ValuesDrawn | easyBtHost/eb_smp.c:150-159 | In every run each host's random value is what the random source gave when the first message reached it |
| SmpRandoms.PairingSends | easyBtHost/eb_smp.c:72-246 | In every run, byte by byte: the first messages are the pairing request and response; each host's confirm and random messages are of the value it drew; the keys are of the two values drawn |
| SmpRandoms.OneAtATime | easyBtHost/eb_smp.c:72-212 | Whatever comes in, in whatever state, a host never has two encryptions under way |
| SmpRandoms.OtherMessages | easyBtHost/eb_smp.c:194-239 | A failed pairing ends the connection with reason 0x16, unknown messages do nothing, and a responder asks with the two bytes of a security request |
| Ccm.Context.InitMessage | bt_encrypt/alg/ccm.c:82-182 | A bad tag length or nonce length is refused with its code, tag length first; otherwise the context stands at the start of the message with that nonce and those lengths: first block and encoded header length are in the CBC buffer as section 2.2 of RFC 3610 lays them out |
| Ccm.Context.AuthHeader | bt_encrypt/alg/ccm.c:184-256 | Return code for every state and length; on success the header so far has grown by exactly the piece and the CBC buffer stands for it; the message state begins exactly when the header is complete |
| Ccm.Context.AuthData | bt_encrypt/alg/ccm.c:258-316 | Same for pieces of plaintext; a piece beyond the message length or before the header is complete is refused and changes nothing else |
| Ccm.Context.CryptData | bt_encrypt/alg/ccm.c:318-386 | The piece becomes its xor with the key stream at its own offset, whatever was cut before it |
| Ccm.Context.ComputeTag | bt_encrypt/alg/ccm.c:388-427 | The tag is the one of section 2.3 of RFC 3610 for the whole header and message, when both are complete; which code is given otherwise |
| CheckValues.ReturnCodes | bt_encrypt/alg/ccm.h:94-104 | The codes returned have the values of the header |
| Ccm.Context.EncryptMessage | bt_encrypt/alg/ccm.c:457-472 | The message becomes its RFC 3610 encryption in place and the tag is that of the plaintext; bad lengths give an error and change no buffer |
| Ccm.Context.DecryptMessage | bt_encrypt/alg/ccm.c:474-492 | The ciphertext becomes the plaintext, and the result is good exactly when the tag given is the plaintext's |
| CcmRuns.EncryptInPieces | bt_encrypt/alg/ccm.c:184-445 | Whatever calls header and message are cut into, and whichever loops each call takes, ciphertext and tag are the one-shot definition's |
| CcmRuns.DecryptInPieces | bt_encrypt/alg/ccm.c:318-455 | Decrypting in any pieces gives the text whose encryption the input is, and that text's tag |
| CcmRuns.SealAndOpen | bt_encrypt/alg/ccm.c:436-492 | Encrypting and decrypting under the same inputs restores the message; the result is good if and only if the tag presented is the one produced |
| CcmBytes.CryptByte | bt_encrypt/alg/ccm.c:318-386 | Every byte of the ciphertext is the message byte xored with one of an encrypted block that holds L - 1, the nonce and the block's number |
| CcmBytes.TagByte | bt_encrypt/alg/ccm.c:388-427 | Every byte of the tag comes from the chain over a first block with the flag bits, nonce and length of section 2.2, header length, header and message, and from the encrypted block number 0 |
| CcmBytes.HeaderLengthBytes | bt_encrypt/alg/ccm.c:128-168 | The encodings of a header length, as numbers |
| CcmBytes.NonceLongest | bt_encrypt/alg/ccm.c:111-112 | A nonce length of 0 stands for the longest nonce that leaves room for the message length |
| Rfc3610.CryptTwice | bt_encrypt/alg/ccm.c:318-386 | Encryption is its own inverse |
| Rfc3610.CryptCut | bt_encrypt/alg/ccm.c:318-386 | Encrypting a concatenation is encrypting the parts, the second at its offset |
| Rfc3610.CounterBlockSucc | bt_encrypt/alg/ccm.c:50-54 | Incrementing the counter field of block i's counter, with its ripple carry, gives the counter of block i + 1 |
| CounterField.IncCtr | bt_encrypt/alg/ccm.c:50-54 | The ripple loop that stops at the first byte that does not wrap is the increment of the whole field and touches nothing before it |
| CounterField.SetCtr | bt_encrypt/alg/ccm.c:42-48 | Stores a number most significant byte first in the field whose width byte 0 tells |
| CcmStart.HeaderLengthAgrees | bt_encrypt/alg/ccm.c:128-168 | The three shifted encodings of the header length are those of section 2.2 |
| CcmStart.FlagsMerged | bt_encrypt/alg/ccm.c:111-124 | The counter block with the message length and the or-ed flags is block B_0 |
| CbcMac.EagerBufIsChain | bt_encrypt/alg/ccm.c:184-316 | The byte-wise buffer that encrypts a block as soon as it is full, flushed at the end, is the CBC-MAC over zero-padded blocks |
| CbcMac.LazyBufIsChain | bt_encrypt/alg/cmac.c:31-82 | The byte-wise buffer that keeps its last full block open is the chain over all blocks but the last, xored with the last |
| CbcMac.HoldsRun | bt_encrypt/alg/cmac.c:42-69 | Xoring a run of bytes, a word or a block at once is the same as byte by byte |
| CbcStream.Absorb | bt_encrypt/alg/ccm.c:202-242 | Both sets of loops, chosen by alignment, leave the buffer that stands for what was in it followed by the data |
| CtrStream.CryptInPlace | bt_encrypt/alg/ccm.c:336-382 | Both sets of loops xor every byte with the key stream byte of its position and leave counter and key block at the next position |
| LinkLayer.Link.constructor | bt_encrypt/bt_encrypt.c:223-233 | The session key is the diversifier encrypted under the long-term key, bytes reversed; the IV is the two halves |
| LinkLayer.SessionKeyBytes | bt_encrypt/bt_encrypt.c:228-230 | Byte by byte: the long-term key from its end, the responder's half of the diversifier from its end, then the initiator's |
| LinkLayer.NonceBytes | bt_encrypt/bt_encrypt.c:238-239 | Bytes 0 to 3 of a nonce are the counter, lowest first, byte 4 the direction, then the IV |
| LinkLayer.Link.Encrypt | bt_encrypt/bt_encrypt.c:235-244 | A packet's nonce is counter, direction bit and IV; payload and check value are CCM under it with the header's two bits |
| LinkLayer.Link.Decrypt | bt_encrypt/bt_encrypt.c:246-253 | The payload is decrypted, in place or into another buffer, and accepted exactly on its own check value |
| LinkLayer.RoundTrip | bt_encrypt/bt_encrypt.c:235-253 | Encrypting then decrypting a packet restores it and accepts exactly the check value written |
| LinkLayer.NoncesDiffer | bt_encrypt/bt_encrypt.c:238-239 | Two packets of a link with one nonce have the same counter and direction |
| Cmac.Context.Data | bt_encrypt/alg/cmac.c:31-82 | What a call does to the buffer, on both alignment paths, for any count before it |
| Cmac.Context.End | bt_encrypt/alg/cmac.c:103-123 | The tag for a buffer and a count, with the subkey doubled once or twice |
| Cmac.Mac | bt_encrypt/bt_encrypt.c:70-76 | Init, one call and end give the CMAC of RFC 4493 |
| Cmac.MacInPieces | bt_encrypt/alg/cmac.c:31-123 | So does any cutting in which no later non-empty call starts at a multiple of 16 |
| Rfc4493.EndIsCmac | bt_encrypt/alg/cmac.c:103-123 | Ending a correct buffer gives the definition's tag, also for the empty message |
| Rfc4493.MaskedByte | bt_encrypt/alg/cmac.c:103-123 | The last block byte by byte: whole with the first subkey, or marked, padded and with the second |
| Rfc4493.SplitIsCmac | bt_encrypt/alg/cmac.c:31-123 | The same for any guarded list of calls, by induction over the calls |
| Rfc4493.CallRightIff | bt_encrypt/alg/cmac.c:31-82 | For an injective cipher a call leaves the buffer of the whole message if and only if it is empty, starts at 0 or off a block boundary, or the cipher fixes the open block |
| Rfc4493.TwoCalls | bt_encrypt/alg/cmac.c:31-123 | The same if and only if, for the tag of a message given in two calls |
| Rfc4493.FlipGoesWrong | bt_encrypt/alg/cmac.c:31-82 | A concrete injective cipher under which every split into two calls at a positive multiple of 16 gives a wrong tag |
| Rfc4493.TagRightIff | bt_encrypt/alg/cmac.c:31-123 | Any list of calls gives the right tag if and only if the buffer before the last non-empty call at a positive multiple of 16 is what the right buffer encrypts to |
| Rfc4493.OneAlignedCall | bt_encrypt/alg/cmac.c:31-123 | With exactly one such call the tag is right if and only if the cipher fixes the open block there |
| Rfc4493.FlipCancels | bt_encrypt/alg/cmac.c:31-82 | Three calls of 16 bytes under that cipher give the right tag |
| GfDouble.GfMulx | bt_encrypt/alg/cmac.c:86-92 | The byte loop doubles the block in place |
| GfDouble.GfMulx2 | bt_encrypt/alg/cmac.c:94-101 | The two-bit loop is doubling twice |
| GfDouble.DoubledBits | bt_encrypt/alg/cmac.c:84-92 | Doubling, bit by bit: a left shift, plus the field's constant if a bit falls out |
| L2capModel.ParseFlat | easyBtHost/eb_l2cap.c:89-104 | The ring's bytes always parse back into the records pushed |
| L2capModel.FragmentsEndOnce | easyBtHost/eb_l2cap.c:105-140 | A packet's fragments carry exactly one end mark |
| L2capFragments.FragmentsAre | easyBtHost/eb_l2cap.c:105-140 | How many fragments a packet has, and each of them byte by byte: handle, boundary flag, length, and the 27 bytes of the packet it carries, or the rest |
| L2capFragments.RunSmall | easyBtHost/eb_l2cap.c:51-142 | Over any run no packet handed over is longer than 32 bytes and at most 8 are in flight |
| L2capModel.DrainConserves | easyBtHost/eb_l2cap.c:89-104 | Draining neither reorders nor loses, and stops only with 8 in flight or nothing queued |
| L2capModel.RunConserves | easyBtHost/eb_l2cap.c:51-142 | Over whole runs: handed over, then queued, is all fragments in order; in flight is handed over less completed and at most 8; either 8 are in flight or nothing waits |
| L2cap.Sender.Send | easyBtHost/eb_l2cap.c:105-142 | The fragmenting loop over the ring queues exactly the packet's fragments and drains; the packet count equals the queued end marks |
| L2cap.Sender.BufferSend | easyBtHost/eb_l2cap.c:89-104 | The drain loop over the ring is the model's, and keeps the ring a flat record list |
| L2cap.Sender.PacketComp | easyBtHost/eb_l2cap.c:51-55 | Completions make room and drain on |
| L2cap.Sender.Init | easyBtHost/eb_l2cap.c:144-149 | Empties queue and counters |
| AclReceiver.Receiver.HandleAcl | easyBtHost/eb_hci.c:25-65 | The reassembly buffer, with its 16-bit remaining count, does what the model says for every framed packet it has room for, dropping and discarding included |
| AclModel.ReceiveConcat | easyBtHost/eb_hci.c:25-65 | Receiving is compositional over packet sequences |
| AclModel.DeliveredGrows | easyBtHost/eb_hci.c:56-65 | What has been delivered stays delivered |
| AclRoom.StaysWithinIff | easyBtHost/eb_hci.c:47-57 | No sequence of continuing fragments overflows the buffer if and only if it has room for what is there and what is still to come |
| AclRoom.FirstRoomyIff | easyBtHost/eb_hci.c:33-45 | After a first fragment that is so if and only if the fragment is dropped or announces between what it carries and 247 bytes |
| AclRoom.ModestRun | easyBtHost/eb_hci.c:25-65 | Any sequence of packets with such first fragments can be received |
| AclFraming.FirstTaken | easyBtHost/eb_hci.c:33-46 | A first fragment with more than 251 bytes of data is ignored, any other starts a packet anew |
| AclFraming.DeliversFramed | easyBtHost/eb_hci.c:25-65 | Whatever fragments arrive in whatever order, what is delivered has both its lengths right |
| AclFraming.GivesUp | easyBtHost/eb_hci.c:47-51 | After a continuing fragment that is too long nothing of its packet is delivered |
| AclRoundTrip.Reassembles | easyBtHost/eb_hci.c:25-65 | From any receiver state, the fragments of a packet, with the boundary flag rewritten by the controllers, become exactly that packet, without overflowing the buffer |
| AclRoundTrip.AllReassemble | easyBtHost/eb_hci.c:25-65 | So do those of any sequence of packets, in order |
| AclRoundTrip.EndToEnd | easyBtHost/eb_l2cap.c:105-142 | At any point of any run of the sender the receiver can take everything handed over and has delivered a first part of the packets sent, and all of them once the queue is empty |
| HashMap.HashMap.constructor | parse_protocol2/hashmap.c:31-47 | An empty map |
| HashMap.HashMap.HashIndex | parse_protocol2/hashmap.c:192-218 | Gives the slot where probing stops, or none if and only if the table is half full or all 8 slots of the chain hold other keys |
| HashMap.HashMap.Put | parse_protocol2/hashmap.c:265-291 | The slots, the size and the status are those of the functions on slots. On MAP_OK the abstract map is updated at the key, through any nesting of rehashes. Otherwise memory is spent, no binding is new, and one is lost if and only if the last table allocated could not take what was moved into it. In a table larger than every hash it fails if and only if the chain is full of other keys, or the table is half full and nothing can be allocated. Keys that are too many for a window of hash values make it fail |
| HashModel.PutAtOnceIff | parse_protocol2/hashmap.c:192-218 | A put succeeds without using memory if and only if the table is less than half full and not all 8 slots of the chain hold other keys |
| HashModel.PutWithRoom | parse_protocol2/hashmap.c:192-218 | So it does when fewer than 8 other bound keys have chains that share a slot with the key's |
| HashGrowth.FlatFailsIff | parse_protocol2/hashmap.c:223-291 | In a table larger than every hash a put runs out of any amount of memory if and only if all 8 slots of the key's chain are in use by other keys |
| HashGrowth.FlatRehash | parse_protocol2/hashmap.c:244-257 | In such a table a rehash puts every key back into its own slot |
| HashGrowth.FlatKeeps | parse_protocol2/hashmap.c:223-291 | In such a table no put ever loses a binding |
| HashForever.FailsForEverIff | parse_protocol2/hashmap.c:223-291 | In any table in order a put fails with every amount of memory if and only if it fails with allocations that make the table larger than every hash |
| HashForever.PutMore | parse_protocol2/hashmap.c:265-291 | A put that succeeds does exactly the same with more memory |
| HashMap.HashMap.FailsForEver | parse_protocol2/hashmap.c:265-291 | The same if and only if, for every reachable map |
| HashNever.NeverFits | parse_protocol2/hashmap.c:192-218 | A run after which a ninth key never gets a place, though no window of hash values has too many of the nine |
| HashLoss.LosesBinding | parse_protocol2/hashmap.c:223-260 | A run of ten puts with one allocation, the last of which runs out of memory and loses the key bound first |
| HashMap.HashMap.Rehash | parse_protocol2/hashmap.c:223-260 | On MAP_OK all bindings are kept, the table at least doubled, and the size is the number of bindings; a rehash that fails keeps them all if and only if it could allocate nothing |
| HashMap.HashMap.Reinsert | parse_protocol2/hashmap.c:244-259 | Putting what the old slots hold, each put possibly rehashing again, rebuilds exactly the old bindings |
| HashMap.HashMap.Get | parse_protocol2/hashmap.c:296-326 | Finds exactly what the abstract map binds, and misses exactly the other keys |
| HashMap.HashMap.Iterate | parse_protocol2/hashmap.c:333-355 | Visits every binding exactly once unless the callback fails, and then stops there with its status |
| HashMap.PutAll | parse_protocol2/hashmap.c:265-291 | A run of puts that all return MAP_OK leaves exactly the map that the abstract updates make; otherwise memory is spent |
| HashTable.StopFinds | parse_protocol2/hashmap.c:206-215 | Probing for a stored key stops at its slot, for another at a free slot |
| HashTable.StoreKeeps | parse_protocol2/hashmap.c:282-288 | Filling that slot keeps keys unique, within 8 probes and without a free slot before them, and binds the key |
| HashCapacity.WindowCapacity | parse_protocol2/hashmap.c:207-217 | Of keys whose hashes lie in a window of w values a table of any size holds at most w + 7 |
| HashCapacity.NinthKey | parse_protocol2/hashmap.c:207-217 | A ninth key of one hash value is one too many for any table |
| Crc24.ByteIsClocks | bt_encrypt/bt_encrypt.c:282 | One byte by table clocks the 24-position register of section 3.1.1 of Vol 6 Part B by the byte's bits |
| Crc24Step.ByteByTable | bt_encrypt/bt_encrypt.c:259-273 | The table step is eight bit steps, because a step is linear |
| Crc24Step.StepsLinear | bt_encrypt/bt_encrypt.c:263-269 | Steps without data distribute over exclusive or |
| Crc24Step.StepsBelow | bt_encrypt/bt_encrypt.c:263-269 | The register stays below 2^24 |
| Crc24Table.Table.Crc24 | bt_encrypt/bt_encrypt.c:255-284 | For every initial value and buffer, the result is the specification's register, preset and clocked by every bit, read upside down, and below 2^24 |
| Crc24Table.Table.Fill | bt_encrypt/bt_encrypt.c:259-273 | The lazily built table holds every entry |
| CheckValues.Crc24OfDigits | bt_encrypt/bt_encrypt.c:255-284 | From 0x555555 the CRC-24 of the digits 1 to 9 is the published 0xC25A56 |
| Whitening.Whiten | bt_encrypt/bt_encrypt.c:286-299 | The data is xored in place with the output of the 7-position register started from the channel index |
| Whitening.NextIsClock | bt_encrypt/bt_encrypt.c:291-293 | The shift with the two-bit xor is one clock of that register |
| Whitening.WhitenTwice | bt_encrypt/bt_encrypt.c:286-299 | Whitening twice restores the data |
| CheckValues.WhiteningOf37 | bt_encrypt/bt_encrypt.c:286-299 | The first eight bytes that whiten channel 37 are the published ones |
| Sha256.Context.Update | bt_encrypt/alg/sha256.c:99-112 | The context stands for the message followed by the input |
| Sha256.Context.Final | bt_encrypt/alg/sha256.c:114-171 | The digest of the padded message, bytes reversed as the build selects |
| Sha256.HashInPieces | bt_encrypt/alg/sha256.c:85-171 | Any cutting into updates gives the digest of the whole |
| Sha256Spec.PaddingEnds | bt_encrypt/alg/sha256.c:118-144 | The one or two last blocks the code builds complete the padding of section 5.1.1 of FIPS 180-4 |
| Sha256Spec.StandsByte | bt_encrypt/alg/sha256.c:103-111 | One byte more, with a full block compressed, keeps state and buffer those of the message |
| CheckValues.StartIsRoots | bt_encrypt/alg/sha256.c:85-97 | The starting state is the first 32 bits of the fractions of the square roots of the first eight primes |
| CheckValues.DigestWord | bt_encrypt/alg/sha256.c:146-171 | Four bytes of a digest are one word, most significant first |
| AttServer.ReadByType | easyBtHost/eb_att.c:80-120 | The response holds, in order, the longest run of asked-for characteristics that fits 23 bytes; an error exactly when there are none |
| AttProps.PropsAllow | easyBtHost/eb_att.c:93-97 | The properties byte has bit 0x02 if and only if the value can be read, 0x04 written without response, 0x08 written, 0x10 notified, 0x20 indicated, and no other |
| AttProps.ResponseDescribes | easyBtHost/eb_att.c:88-118 | Every entry of a response, byte by byte: handle, properties, value handle and type of a declaration in the range asked for |
| AttModel.OneSize | easyBtHost/eb_att.c:88-108 | All entries of a response have one size, and there are at most three |
| AttModel.FullResponse | easyBtHost/eb_att.c:88-91 | A response fits into 23 bytes, and the next entry, of 21 or 7 bytes, does not |
| AttServer.SizeByteRight | easyBtHost/eb_gattc.c:58 | In every response the client counts as many characteristics as there are if and only if the first is not declared by the last handle asked for, or is 128-bit |
| AttServer.LastHandleFails | easyBtHost/eb_att.c:103-118 | A database and a request for which the size byte is 21 before an entry of 7 bytes, and the client counts none |
| AttModel.CharsSound | easyBtHost/eb_att.c:86-111 | Only declarations are listed, each with its own value |
| AttModel.CharsComplete | easyBtHost/eb_att.c:86-111 | Every declaration is listed |
| AttModel.CharsOrdered | easyBtHost/eb_att.c:86-111 | Once each, by increasing handle |
| Discovery.Decode | easyBtHost/eb_gattc.c:53-72 | Taking a response apart gives exactly the characteristics it was built from, within the client's room for three |
| Discovery.Client.OnChars | easyBtHostSDP/sdp.c:244-270 | Records declaration and value of each, and asks on behind the last value |
| Discovery.Client.Discover | easyBtHostSDP/sdp.c:244-312 | The loop of both sides ends with every characteristic of the database found exactly once, in handle order, and recorded: the table has rows for every declaration and its value, with the properties bits and the type of the value's attribute, and no other rows |

## Left out

- AES and the compression function of SHA-256: both are arbitrary functions here, so bad key lengths and key schedules do not appear.
- Ccm.Context.InitMessage: nonce and length checks are modelled, but a message longer than its length field can hold is not excluded; lengths are unbounded numbers.
- Ccm.Context.CryptData: one call is shorter than 2^32 - 16 bytes, because the call's own counter has 32 bits; the position counters of the context are unbounded.
- Cmac.Context.Data: the message is shorter than 2^32 bytes, because the context's count has 32 bits.
- DfuRuns.Safety: no answer to SELECT matches. The client's abort call is not modelled, and a lost or reordered packet is not either; the channels between client and peer are whole and in order, without the transport below them.
- DfuClient.Dfu.Recv: an answer to the checksum request is read without a length check, so it is required to be long enough; answers on which the client hangs, or which make it read past the end of its object, are required not to occur.
- DfuClient.Dfu.CanSend: a grant on which the client hangs is required not to occur; DfuControl.JamsIff says when that is.
- DfuControl.RecvSound: the invariant of fresh transfers is not kept by an answer that resumes one; DfuControl.RecvSteady covers those.
- DfuProgress.Completion: like DfuRuns.Safety it is about updates in which no answer to SELECT matches; the other runs are those of DfuOutcome.ResumeOutcome.
- DfuOutcome.ResumeOutcome: a recorded size above the object's, or a peer's offset past its end, makes the client read outside its object and is excluded. Runs are followed until the object is decided; DfuOutcome.ImageFollows goes on from a command object, and a second matching answer, for the image, is again a case of DfuOutcome.ResumeOutcome.
- DfuRuns.Ready asks for an MTU of at least 23 and fewer than 128 credits, which a signed byte holds; both objects are non-empty and shorter than 2^32.
- L2cap.Sender.Send: the ring must have room for the fragments and fewer than 127 packets may be queued, as the source's assertion and its signed byte demand.
- AclRoundTrip.EndToEnd: the controllers rewrite the boundary flag of first fragments and nothing else; connection handles are the same at both ends and controllers do not cut packets differently. L2CAP packets are at most 247 bytes long, as the receiver's buffer demands.
- AclReceiver.Receiver.HandleAcl: a continuing fragment for which the buffer has no room (AclRoom says when), an ACL length that does not match the packet, a first fragment shorter than its L2CAP header, and the other two boundary flags are required not to occur; the source does not check them.
- SmpRuns.Completion: the run ends when both controllers have the key; the key distribution that follows the change of encryption, pairing failures, lost connections and other users of the controller's encryption are not modelled. Neither host compares the confirm value it receives, so nothing is said about it.
- Smp.Pairing.Handle: messages are the SMP bytes without their L2CAP and HCI headers, and are required to be as long as the handler reads.
- HashMap.HashMap.Put: running out of memory is a budget of successful allocations; duplicating the key is assumed to succeed, and the hash of a key is an arbitrary function. Removing keys is left out: it leaves free slots that the probing does not allow for.
- Discovery.Client.Discover: requests carry their handles as numbers; the database has fewer than 0xFFFF attributes and a value after every declaration, which the server's code reads without checking.
- AttServer.ReadByType: the attribute type is identified by address in the source; here a flag says that it is the declaration type.
- The HCI command queue, the other attribute handlers, service and descriptor discovery, advertising, connection parameters: they would add easy members only.
- LE Secure Connections functions of the toolbox (f4, f5, f6, g2, h6, h7, P-256): one CMAC call each over a fixed layout.
- USB, serial, Windows, console, zip, log, script, DNS and file-format code.
