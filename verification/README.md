# Verification of the terminal's SSH client, rate limiter and key lifecycles

This project models the parts of the repository where a mistake would be quiet and costly, and
proves properties of them in Dafny. `dafny verify dfyconfig.toml` checks all of it.

**The SSH client** (`src/ssh`). `Wire` holds the codecs: `Writer` and `Reader` as classes, and
records of fields with a decoder that inverts the encoder. `Kex` holds the exchange hash and the key
derivation. `Stream` is the socket reader over a list of chunks, `Framing` the two packet formats,
and `SendQueue` and `Packets` the packet layer: the serialised send queue as a step machine and as
objects. `Delivery` runs a sender and a receiver against each other. `Handshake` and
`HandshakeClient` are the handshake and the login, and `NewKeys` the gap in it between NEWKEYS and
the cipher. `Messages`, `Channel` and `SshClient` are the channel, `Writes` what its `write()` calls
do over whole runs, `Overlaps` runs in which overlapping calls go wrong, `Requests` what the client
asks and answers and on which channel, and `Flow` puts the channel together with a server that reads
the client's bytes. `Connection` puts the handshake and the channel on one send queue, as
`connect()` does, and in `WholeClient` a peer reads back all that such a client sends.

**The rate limiter** (`src/rate-limit.ts`, `src/security/suspicion.ts`) is `RateLimits`.

**Sessions and keys.** `Sessions` is the terminal object of `src/session.ts`, `LoginSessions` the
sessions table of `src/auth/session.ts`, `Credentials` passwords and data encryption keys
(`src/auth/password.ts`, `src/auth/dek.ts`, the credential columns of `src/db/users.ts`, and the
requests of `src/api/auth.ts` that use them).

## How asynchronous code is modelled

An `async` function is cut at its awaits. Each piece is a function from state to state, a machine's
`Step` chooses a piece by an event, and a run is any sequence of events, so that calls, failures and
replies interleave in every order the event loop allows and in more. The classes have one method
for each piece, with a contract that equates the new state with `Step`; the theorems are about all
runs of `Step`. What a theorem measures is taken from the run itself: the credit a server granted
from the packets that were taken, the bytes a call sent from the messages its steps added, the
user's answer from the event that brought it, the credit from the bytes a server reads, the end of a session from the packet, failure or
`close()` that is to end it, its age and its last use from the times of the events. Durable Object
methods (the rate limiter, the terminal object) are one step each.

Cryptography enters as functions. Of AES-GCM the packet layer uses that sealed data opens to itself
and is 16 bytes longer; the credential store uses an ideal cipher, under which sealed data opens
under one key only; of SHA-256 the key derivation uses the digest length. `Framing.LawsCanBeMet` and
`Credentials.LawsCanBeMet` exhibit functions that satisfy these laws. Random bytes, times and
network data are parameters of events. Strings are byte strings.

## Where the code stops short

Some statements one might expect are false of the code. For each, the project proves when they hold.

- `readLine` compares its length limit with what it has buffered (src/ssh/stream.ts:48), so whether a
  line is refused can depend on how the bytes were split. It does not exactly when there is no
  newline or it is at index `maxLen` or before (`Stream.LineFragmentation`).
- A list that holds just one empty name reads back as the empty list; name-lists come back exactly
  when no name has a comma and the list is not that one (`Wire.NameListRoundTrip`).
- Between its NEWKEYS and `enableGcm` the client answers a global request in the clear
  (src/ssh/connection.ts:592). Something leaves in the clear after NEWKEYS exactly in the runs where a
  request that wants an answer arrives there (`NewKeys.ClearAfterNewKeysExactly`); any client
  waiting there can be brought to it (`NewKeys.DeclinesInTheClear`), and there is a whole run that
  gets there (`NewKeys.GapIsReached`). In all other runs the packets on the wire are sealed exactly
  from NEWKEYS on (`WholeClient.ClientSwitchesAtNewKeys`).
- `write()` charges the window after its awaited send (src/ssh/connection.ts:270-277), and the
  terminal object starts one for every message without waiting for the one before
  (src/session.ts:115-117, src/session.ts:195). The client oversteps the server's window at some point of
  a run exactly if at some point a write takes a chunk that does not fit beside the chunks still on
  their way (`Writes.OverrunExactly`). Callers that wait for each write never get there
  (`Writes.OneAtATimeIsFrugal`); two that do not can send twice what was granted
  (`Overlaps.OverlapOverruns`).
- For the same reason overlapping calls can drive the window below zero, and a chunk taken then has
  a negative size and sets a write back over its own data (src/ssh/connection.ts:268-278). Every
  write has handed over just its data up to its offset, and the chunk on its way, at all points of a
  run exactly if no chunk is taken while the window is negative (`Writes.PrefixesExactly`). There is
  a run of two calls in which one byte typed once is sent twice (`Overlaps.OverlapRepeats`).
- A call that sleeps has no window and an open session at all points of a run exactly if no chunk is
  charged while a call sleeps (`Writes.NoWakeupIsLost`). There is a run of three calls that ends with
  one asleep although the session is open and the window is one byte (`Overlaps.OverlapSleeps`).
- `consumeWindow` credits whatever channel number the client knows (src/ssh/connection.ts:250-255), and
  `expect` dispatches data before the confirmation has brought one (src/ssh/connection.ts:343-347). Data
  that a server sends before it confirms the channel are credited to channel 0, and if its own number
  is another the credit is lost (`Flow.CreditCanStray`). With every other server all of it comes back
  (`Flow.CreditComesBack`).
- A frame is accepted by the receiving side exactly up to 262,135 bytes of payload in the clear and
  262,139 sealed; the sending side has no limit (`Framing.ClearFrameRoundTrip`,
  `Framing.GcmFrameRoundTrip`).
- `startSsh` stores the client and the parameters after its await (src/session.ts:131,
  src/session.ts:148), and `configure` does not look at `torndown`, so a torn-down object can hold
  parameters again: exactly when it is configured anew or a connect pending at teardown succeeds
  (`Sessions.HeldAfterTeardown`), as when the browser leaves while the connect is under way
  (`Sessions.TeardownUndone`).
- `updateCredentials` does not look at what it overwrites. A password can be replaced without
  anybody asking exactly when a request that read the row before it was written has yet to write
  (`Credentials.UndoneExactly`); a login that re-hashes can so undo a password change
  (`Credentials.RehashUndoesChange`). The data key survives all of it (`Credentials.DekIsConserved`).
- `last_seen_at` is written at most once a minute, so a session can end up to a minute before its
  exact idle lifetime does, and there are runs where it does (`LoginSessions.RefinesExactSliding`,
  `LoginSessions.MinuteIsLost`).

## Model

| member | source | states |
|---|---|---|
| Wire.RecordRoundTrip | src/ssh/wire.ts:6-115 | any list of fields that fit, written and followed by anything, is read back as the same fields with the rest untouched |
| Wire.RecordInjective | src/ssh/wire.ts:6-115 | two records of the same shape with equal bytes have equal fields and equal tails |
| Wire.FieldRoundTrip | src/ssh/wire.ts:6-115 | the same for one field of each kind |
| Wire.NameListRoundTrip | src/ssh/wire.ts:32-34 | splitting a joined name-list gives the names back exactly when none holds a comma and the list is not one empty name |
| Wire.MpintCanonical | src/ssh/wire.ts:36-49 | the bytes of an mpint are the only ones that keep the unsigned value, have no redundant leading zero and a clear sign bit, zero being the empty string (section 5 of RFC 4251) |
| Wire.MpintInjective | src/ssh/wire.ts:36-49 | two byte strings give the same mpint exactly when they denote the same number |
| Wire.TakenString | src/ssh/wire.ts:91-114 | a string is read off the front exactly if the bytes are a four-byte length, that many bytes, and the rest |
| ByteStrings.FourBytes | src/ssh/wire.ts:18-22 | a 32-bit number is its four bytes, most significant first, both ways |
| Wire.WireExamples | test/wire.test.ts:4-20 | the number, the string and the flags given as examples in section 5 of RFC 4251 have the bytes given there |
| Wire.NameListExamples | test/wire.test.ts:22-27 | and so have lists of no, one and two names |
| Wire.MpintExamples | test/wire.test.ts:29-40 | and the mpint examples, leading zeros included |
| Wire.Writer.Mpint | src/ssh/wire.ts:36-49 | the loop that skips zeros and the sign padding append exactly that mpint as a string field |
| Wire.Writer.String | src/ssh/wire.ts:24-29 | appends one length-prefixed string field |
| Wire.Writer.NameList | src/ssh/wire.ts:32-34 | appends one comma-joined name-list field |
| Wire.Writer.ToBytes | src/ssh/wire.ts:51-66 | returns the encoding of the fields written, in order |
| Wire.Reader.String | src/ssh/wire.ts:91-114 | takes one string off the front, or fails past the end having consumed at most its length prefix |
| Wire.Reader.NameList | src/ssh/wire.ts:104-107 | takes one name-list off the front, the empty string being the empty list, or fails past the end having consumed at most its length prefix |
| Wire.Concat | src/ssh/wire.ts:122-132 | the two loops over a preallocated buffer produce the parts end to end |
| Kex.ComputeExchangeHash | src/ssh/kex.ts:81-92 | hashes the eight strings, written out byte by byte, in the order of section 4 of RFC 5656, the secret as an mpint |
| Kex.TranscriptInjective | src/ssh/kex.ts:81-92 | two exchange-hash inputs have the same preimage exactly when their seven strings are equal and their shared secrets are the same number |
| Kex.DeriveKey | src/ssh/kex.ts:128-142 | K1 is the hash of K, H, the letter and the session id in that order, every further block the hash of K, H and the whole key so far, and the key their first length bytes |
| Kex.DerivedKeysNest | src/ssh/kex.ts:128-142 | a shorter key of one derivation is a prefix of every longer one, so the length alone fixes the key |
| Kex.Derivation.StreamPrefix | src/ssh/kex.ts:138-140 | fewer blocks are a prefix of more blocks |
| Stream.ByteStream.Pull | src/ssh/stream.ts:8-19 | one read moves one chunk into the buffer, keeps the unread bytes as they are, and tells end from failure |
| Stream.ByteStream.ReadExact | src/ssh/stream.ts:21-35 | returns exactly the next n unread bytes however they are chunked, or fails and consumes nothing; ends because chunks run out |
| Stream.ByteStream.ReadLine | src/ssh/stream.ts:37-52 | returns the bytes before the first LF without one CR, consumes through that LF, and otherwise fails without consuming |
| Stream.TooLongExactly | src/ssh/stream.ts:37-52 | a line is refused for its length exactly when some prefix of the chunks is longer than maxLen and has no newline |
| Stream.LineFragmentation | src/ssh/stream.ts:37-52 | every split of the bytes into chunks gives the same outcome exactly when there is no newline or it is at index maxLen or before |
| Framing.ClearPadIsLeast | src/ssh/packet.ts:99-104 | cleartext padding is the least of four or more bytes that fills blocks of 8 over the whole packet (section 6 of RFC 4253) |
| Framing.GcmPadIsLeast | src/ssh/packet.ts:112-119 | sealed padding is the least of four or more bytes that fills blocks of 16 over the encrypted part (section 7 of RFC 5647) |
| Framing.ClearFrameRoundTrip | src/ssh/packet.ts:99-110 | a cleartext frame with anything behind it is read as its payload and that, exactly when the payload is at most 262,135 bytes; beyond, the length is refused |
| Framing.GcmFrameRoundTrip | src/ssh/packet.ts:112-137 | the same for sealed frames up to 262,139 bytes, and the receiving counter moves on as the sending one did |
| Framing.IvsDiffer | src/ssh/packet.ts:34-58 | fewer than 2^64 steps of the invocation counter, wrap-around included, never bring an IV back |
| Framing.ClearAcceptedExactly | src/ssh/packet.ts:144-154 | a payload is received in the clear exactly if the unread bytes are a length of 8 to 262,144, a padding length, the payload and the padding; what follows stays |
| Framing.SealedAcceptedExactly | src/ssh/packet.ts:156-180 | a sealed payload exactly if length plus 16 bytes open, under the IV of fixed field and counter and with the length as associated data, to the same in blocks of 16; the counter then moves on by one modulo 2^64 |
| Framing.LengthsRefused | src/ssh/packet.ts:144-163 | lengths outside those bounds, and packets cut short, are refused with the error that says so, and what is consumed then |
| Packets.FirstIvIsTheDerivedOne | src/ssh/packet.ts:34-58 | fixed field and counter together are the derived 12-byte IV |
| Packets.GcmDirection.Iv | src/ssh/packet.ts:47-53 | the IV is the fixed field and the counter as 8 big-endian bytes |
| Packets.GcmDirection.Bump | src/ssh/packet.ts:55-57 | the counter moves on by one, modulo 2^64 |
| Packets.Packets.EnableGcm | src/ssh/packet.ts:76-85 | installs both directions; the sending machine continues from the derived one |
| Packets.Packets.Send | src/ssh/packet.ts:87-97 | a call takes its place at the end of the queue |
| Packets.Packets.StartNext | src/ssh/packet.ts:87-137 | the first queued send is refused after destroy, framed in the clear before GCM, and handed to encryption after, padded with random bytes, as the machine does |
| Packets.Packets.EncryptSettled | src/ssh/packet.ts:112-137 | a successful encryption makes the frame and moves the counter on; a failed one settles the send and leaves the counter |
| Packets.Packets.WriteSettled | src/ssh/packet.ts:87-97 | the write ends the send with its result and frees the queue |
| Packets.Packets.Destroy | src/ssh/packet.ts:182-188 | drops both directions and refuses what starts later |
| Packets.Packets.FrameClear | src/ssh/packet.ts:99-110 | the buffer filled in place is the four length bytes, the padding length, the payload and the padding |
| Packets.Packets.FrameGcm | src/ssh/packet.ts:112-137 | the length in the clear, and sealed with it as associated data and under the captured direction's IV: padding length, payload, padding |
| Packets.Packets.Receive | src/ssh/packet.ts:139-180 | reads by the current mode's specification, bytes left over and counter included; refuses after destroy |
| Packets.Packets.ReadClear | src/ssh/packet.ts:144-154 | one cleartext packet off the unread bytes, or the error of its length or padding |
| Packets.Packets.ReadGcm | src/ssh/packet.ts:156-180 | one sealed packet off the unread bytes; the counter moves on exactly when the tag verified |
| SendQueue.RunIsValid | src/ssh/packet.ts:87-137 | in every run: call order, whole frames, counter in step, and no frame in the clear after a sealed one |
| SendQueue.FramesFollowCalls | src/ssh/packet.ts:87-137 | settled sends are the first calls in call order, and what was written for each is one whole frame of its payload |
| SendQueue.SealedFramesNeverShareAnIv | src/ssh/packet.ts:34-58 | the k-th sealed frame uses the k-th IV after the first, and no two of up to 2^64 share one |
| SendQueue.DrainSettlesEverySend | src/ssh/packet.ts:87-97 | every queued send settles with the outcome it earns by itself, whatever failed before it |
| SendQueue.NothingStartsAfterDestroy | src/ssh/packet.ts:182-188 | a send not yet started at destroy is refused in every continuation |
| Delivery.ReadBack | src/ssh/packet.ts:87-180 | any run of the sender that switches at NEWKEYS, its bytes behind any good identification lines and cut into any chunks, is read back as exactly those lines and payloads, GCM from NEWKEYS on, leaving what follows unread and the receiving counter moved on once for each sealed frame |
| Delivery.OnWireChained | src/ssh/packet.ts:34-58 | the sealed frames that reach the peer use consecutive counters from the first on |
| Handshake.AuthOnlyAfterVerifiedHost | src/ssh/connection.ts:357-519 | over any server behaviour, a USERAUTH_REQUEST goes out only sealed, only after a reply whose bytes are a host key blob, the server's 32-byte half and a signature blob such that the 64-byte ssh-ed25519 signature in it verifies, under the 32-byte key in the blob, over the hash of the actual transcript; after the pin matched or an earlier event was the user's yes to that very fingerprint, and after NEWKEYS went both ways; it is made for the session id that was signed; nothing is sent after the timeout destroys the layer; what the trace calls received is what the events brought, in order |
| Handshake.TraceIsWhatWasHeard | src/ssh/connection.ts:357-598 | the lines, packets, answers, key switch and timeout in a trace are those of the events the client awaited, in order, and no others |
| Handshake.RunIsBehind | src/ssh/connection.ts:357-473 | at every point of every run, what the earlier steps must have sent and received is in the trace, the host key's acceptance included, and GCM is on exactly from its step on |
| Handshake.RunIsSound | src/ssh/connection.ts:357-519 | every send and every verified signature in a trace is justified by the entries before it |
| NewKeys.ClearAfterNewKeysExactly | src/ssh/connection.ts:581-614 | a packet leaves in the clear after our NEWKEYS exactly if a global request wanting a reply arrived before GCM was on |
| NewKeys.WaitingRuns | src/ssh/connection.ts:363-458 | with a server that offers what we need and proves an acceptable key, the client comes to wait for NEWKEYS |
| NewKeys.DeclinesInTheClear | src/ssh/connection.ts:592-614 | any client waiting for NEWKEYS answers such a request in the clear |
| NewKeys.GapIsReached | src/ssh/connection.ts:357-614 | a configuration and a whole run, packets included, that put a packet in the clear after NEWKEYS |
| Handshake.SignedMeans | src/ssh/kex.ts:100-121 | the host key check passes exactly if both blobs start with the string ssh-ed25519 and a string of 32 or 64 bytes and the signature verifies over the message |
| Handshake.NegotiatesExactly | src/ssh/connection.ts:392-404 | the client goes on with exactly the KEXINITs whose first four name-lists, behind a cookie of 16 bytes, each hold a name of ours |
| Handshake.GoesOnWithOurs | src/ssh/connection.ts:363-404 | while it has not failed: past the identification the server has named SSH-2.0, past the KEXINITs it has offered algorithms of ours in all four lists |
| Handshake.FinishesOnSuccess | src/ssh/connection.ts:468-519 | it finishes only on a USERAUTH_SUCCESS that came after the login for this session had gone out sealed, and that after a SERVICE_ACCEPT |
| Handshake.FailureIsFinal | src/ssh/connection.ts:99-117 | after a read or a send that fails, or the user's no, it has failed and hands over nothing more in any continuation |
| Handshake.KexInitReads | src/ssh/connection.ts:374-389 | a server reads our KEXINIT as number 20, the cookie, the ten name-lists in the order of section 7.1 of RFC 4253, no guess and the reserved word |
| Handshake.TransportReads | src/ssh/connection.ts:406-468 | and KEX_ECDH_INIT as our public key, SERVICE_REQUEST as ssh-userauth |
| Handshake.KeyLoginSignsSession | src/ssh/connection.ts:521-556 | a public key login is the request's bytes and an ssh-ed25519 signature over the session id, as a string, and those very bytes |
| Handshake.KeyLoginReads | src/ssh/connection.ts:546-555 | a server reads it as number 50, the user, ssh-connection, publickey, true, ssh-ed25519, the key and that signature |
| Handshake.PasswordLoginReads | src/ssh/connection.ts:480-489 | and a password login as number 50, the user, ssh-connection, password, false and the password |
| Handshake.SignedBytesBindSession | src/ssh/connection.ts:528-539 | the bytes a public-key login signs determine the session id, the user and the key |
| Handshake.ClientConfigIsWellFormed | src/ssh/connection.ts:374-389 | the KEXINIT and login that connect() builds are what the theorems about configurations assume |
| HandshakeClient.BuildKexInit | src/ssh/connection.ts:374-389 | writes the KEXINIT record for the offered lists |
| HandshakeClient.Negotiate | src/ssh/connection.ts:392-404 | reads the server's lists and goes on exactly when the bytes hold an algorithm of ours in each of the four |
| HandshakeClient.Pick | src/ssh/connection.ts:616-619 | finds the first of ours that is among theirs exactly when there is one |
| HandshakeClient.PublicKeyRequest | src/ssh/connection.ts:521-556 | the request's own bytes, then the signature over the session id and those bytes |
| HandshakeClient.BuildAuthRequest | src/ssh/connection.ts:480-490 | writes the login record for either kind of credential |
| HandshakeClient.VerifyHostKey | src/ssh/kex.ts:100-121 | says valid exactly when the key blob carries an ssh-ed25519 key of 32 bytes and the signature blob a signature of 64 that verifies under it over the hash; is readable exactly when both blobs are; gives the fingerprint of the blob |
| HandshakeClient.ReadGlobalRequest | src/ssh/connection.ts:609-614 | reads whether an answer is wanted, as the parser specifies |
| HandshakeClient.Handshaker.CheckReply | src/ssh/connection.ts:409-432 | the transcript completed by the reply, unless the reply is malformed or its signature does not verify |
| HandshakeClient.Handshaker.DecideHostKey | src/ssh/connection.ts:434-457 | fails closed: a pin must match, no pin means asking |
| HandshakeClient.Handshaker.OnLine | src/ssh/connection.ts:365-390 | one identification line, as the machine specifies |
| HandshakeClient.Handshaker.OnPacket | src/ssh/connection.ts:494-598 | one packet in any wait of the handshake or login, as the machine specifies |
| HandshakeClient.Handshaker.OnConfirm | src/ssh/connection.ts:449-457 | the user's answer about the host key |
| HandshakeClient.Handshaker.OnKeysReady | src/ssh/connection.ts:460-468 | GCM goes on and the service request is the first sealed packet |
| HandshakeClient.Handshaker.OnTimeout | src/ssh/connection.ts:99-117 | the packet layer is destroyed whatever the handshake waits for |
| Messages.DataExactly | src/ssh/connection.ts:188-194 | a packet is taken for data exactly if it is number 94, a channel, a string and anything, and for just that string |
| Messages.ExtendedDataExactly | src/ssh/connection.ts:195-202 | the same for number 95 with a type code before the string |
| Messages.AdjustExactly | src/ssh/connection.ts:203-208 | the same for number 93, a channel and the increment |
| Messages.RequestExactly | src/ssh/connection.ts:213-224 | the same for number 98, a channel, a name and a flag that is not zero if an answer is wanted |
| Messages.GlobalRequestExactly | src/ssh/connection.ts:609-614 | the same for number 80, a name and that flag |
| Messages.DisconnectExactly | src/ssh/connection.ts:228-232 | the same for number 1, a code and a text |
| Messages.ConfirmationExactly | src/ssh/connection.ts:131-137 | a confirmation is read exactly from four numbers: the recipient's, the sender's, the window and a limit |
| Messages.KindsExactly | src/ssh/connection.ts:182-242 | which packets the first byte alone decides, and that only cut-short ones of six kinds and empty ones are malformed |
| Messages.OpenReads | src/ssh/connection.ts:121-128 | a server reads our CHANNEL_OPEN as number 90, session, our number, the window and the limit |
| Messages.PtyReads | src/ssh/connection.ts:139-152 | and the terminal request as number 98, the channel, pty-req, true, the terminal, columns, rows, two zeros and no modes |
| Messages.ShellReads | src/ssh/connection.ts:155-161 | and the shell request |
| Messages.WindowChangeReads | src/ssh/connection.ts:282-296 | and a resize as window-change, false, columns and rows |
| Messages.DataReads | src/ssh/connection.ts:270-276 | and data as number 94, the channel and the chunk |
| Messages.AdjustReads | src/ssh/connection.ts:250-255 | and a window adjustment as number 93, the channel and the increment |
| Messages.CloseReads | src/ssh/connection.ts:298-304 | and a close as number 97 and the channel |
| Messages.FailureReads | src/ssh/connection.ts:213-224 | and a refused request as number 100 and the channel, or as number 82 |
| Channel.RunIsSound | src/ssh/connection.ts:120-353 | what every run keeps, however writes overlap, in which no chunk is taken while the window is negative: sent bytes less lost ones, window in hand and chunks on their way add up to the credit of the packets taken; chunks fit; each write has handed over the prefix its offset says; nothing is written or closed before the shell is open |
| Writes.SendWindowBound | src/ssh/connection.ts:259-280 | in every frugal run the bytes of sends that did not fail are within the window of the confirmation and the WINDOW_ADJUSTs taken, all bytes are if no send failed, and chunks have 1 to MAX_PACKET - 64 bytes |
| Writes.OverrunExactly | src/ssh/connection.ts:264-278 | a run oversteps the granted credit at some point exactly if some write takes a chunk that, with the chunks on their way, is larger than remoteWindow |
| Writes.OneAtATimeIsFrugal | src/ssh/connection.ts:259-280 | if every write() is called when those before it have returned, no step overcommits, whatever else interleaves |
| Overlaps.OverlapOverruns | src/ssh/connection.ts:264-278 | two overlapping writes after a whole openShell send twice the window the server granted |
| Overlaps.OverlapRepeats | src/ssh/connection.ts:264-278 | a run of two overlapping writes hands over [1] and [4, 4], a byte of the second call sent twice |
| Overlaps.OverlapSleeps | src/ssh/connection.ts:264-278 | a run of three overlapping writes leaves one asleep on an open session with a byte of window |
| Writes.FrugalIsForward | src/ssh/connection.ts:267-278 | where every chunk fits beside those on their way, none is taken while the window is negative |
| Writes.WritesSendPrefixes | src/ssh/connection.ts:259-280 | however writes overlap, if no chunk is taken while the window is negative: the bytes each write()'s own steps hand over are a prefix of its data, all of it if it ended with neither the session closed nor its send failed, up to its offset and the chunk on its way meanwhile, and all writes together account for all channel data |
| Writes.PrefixesExactly | src/ssh/connection.ts:264-278 | in any run at all, that holds at every point exactly if no write takes a chunk while the window is negative |
| Writes.WritesFollowOneAnother | src/ssh/connection.ts:259-280 | with one write at a time the channel's bytes are what the writes handed over, one after the other |
| Writes.NoWakeupIsLost | src/ssh/connection.ts:264-278 | in any run at all, a sleeping write means zero window and an open session at every point exactly if no chunk is charged while a write sleeps |
| Writes.FrugalIsRested | src/ssh/connection.ts:264-278 | where every chunk fits beside those on their way, none is charged while a write sleeps |
| Channel.ClosesOnce | src/ssh/connection.ts:167-318 | the session is closed exactly if the pump took a channel close, DISCONNECT, rekey or malformed packet, one of its reads or sends failed, or the send of a close() settled; onClose has fired once then and never before, and no write sleeps |
| Flow.CreditIsConserved | src/ssh/connection.ts:182-257 | with any server that keeps to its credit and names its own channel number: the credit it has read off the client's bytes, data in flight, credit in unread bytes and increments that name another channel add up to localWindow, which stays above half |
| Flow.CreditComesBack | src/ssh/connection.ts:245-257 | if it sends no data before its confirmation no credit goes astray, so that once the links drain it can send more than 1,048,576 bytes |
| Flow.CreditCanStray | src/ssh/connection.ts:343-347 | otherwise, whatever its number but 0, there is a run in which credit is lost |
| Flow.CreditIsRead | src/ssh/connection.ts:120-129 | what a server reads off the bytes of CHANNEL_OPEN and WINDOW_ADJUST is the credit they are meant to give it, and off other messages none |
| Requests.AsksInOrder | src/ssh/connection.ts:120-163 | in every run the client asks for a session of 2,097,152 bytes, a terminal of its size and a shell, each once the one before was granted, and every message on a channel names the number in the confirmation taken, or 0 before that |
| Requests.AnswersEveryRequest | src/ssh/connection.ts:213-227 | each channel or global request taken that wants an answer gets one failure, in order, and no others are sent |
| Flow.DataDeliveredOnceInOrder | src/ssh/connection.ts:167-202 | every stretch of ordinary and extended data reaches its callback once and in order, in expect() and in pump() |
| Flow.PlayKeepsInvariants | src/ssh/connection.ts:167-257 | conservation and order are kept by every move of either end and of every task |
| Connection.WireFollowsClient | src/ssh/connection.ts:87-118 | in every run of the whole client, what has settled is a prefix of what handshake and channel asked to send, in order, each written frame whole and sealed exactly when the handshake holds it to be or it belongs to the channel |
| Connection.LoginIsSealed | src/ssh/connection.ts:475-519 | every written USERAUTH_REQUEST is a sealed frame under the direction made of key C and IV A of this exchange (section 7.2 of RFC 4253), and was justified when it was handed over |
| Connection.SendingDirectionIsDerived | src/ssh/connection.ts:460-466 | the direction the model installs has as key the hash of K, H, the letter C and H, and as IV the first 12 bytes of that with A |
| Connection.NothingLeavesAfterTheEnd | src/ssh/connection.ts:99-118 | from the step on in which the handshake times out or fails, the shell cannot be opened or the session ends, every send that had not started is refused, later ones included, in every continuation |
| WholeClient.ClientSwitchesAtNewKeys | src/ssh/connection.ts:357-473 | in every run of the whole client without a request for an answer between NEWKEYS and GCM, however sends fail, the packets on the wire are in the clear up to NEWKEYS and sealed from then on |
| WholeClient.QueueIsFed | src/ssh/packet.ts:87-97 | the packet layer of a whole client is at every point a run of the send queue, so what is proved of those runs holds of it |
| WholeClient.WireIsFirst | src/ssh/packet.ts:87-118 | if no encryption failed, what reached the wire is the first of what handshake and channel asked to send, with no gap |
| WholeClient.DirectionIsUnique | src/ssh/kex.ts:128-142 | whoever derives key C and IV A from the same exchange has the client's direction |
| WholeClient.ReadClient | src/ssh/connection.ts:357-473 | a peer with the derived key and IV reads the identification line and exactly the packets that reached the wire out of any chunking, in every run without such a request; that the client switches at NEWKEYS is proved, not assumed |
| Connection.RunIsSound | src/ssh/connection.ts:87-118 | queue, handshake and channel stay linked: keys change only when nobody waits, and every parcel waits in the mode it will leave in |
| SshClient.SshClient.constructor | src/ssh/connection.ts:120-129 | the CHANNEL_OPEN sent reads as the window of 2,097,152 bytes the client starts with and the limit of 32,768 |
| SshClient.SshClient.Dispatch | src/ssh/connection.ts:182-242 | every kind of packet has the effect the machine specifies, cut-short packets included |
| SshClient.SshClient.ConsumeWindow | src/ssh/connection.ts:245-257 | uses window and, at 1,048,576 bytes or below, restores it to 2,097,152 and sends a message that reads as number 93, the channel and the difference |
| SshClient.SshClient.ExpectPacket | src/ssh/connection.ts:320-353 | one packet while a reply is awaited: the reply, a refusal, noise, or traffic for the dispatcher |
| SshClient.SshClient.Replied | src/ssh/connection.ts:131-163 | reads the confirmation and sends the next request |
| SshClient.SshClient.OnReceived | src/ssh/connection.ts:167-179 | one packet, as the machine's step |
| SshClient.SshClient.OnReadFailed | src/ssh/connection.ts:176-178 | a read error ends the session once |
| SshClient.SshClient.OnMainSent | src/ssh/connection.ts:120-179 | the main task's send settles |
| SshClient.SshClient.Wake | src/ssh/connection.ts:206 | the loop wakes every sleeping write and touches nothing else |
| SshClient.SshClient.Write | src/ssh/connection.ts:259-262 | write() up to its first await, refused when closed |
| SshClient.SshClient.WriteInner | src/ssh/connection.ts:264-276 | waits without window, gives up when closed, or hands over, as number 94, the least of what is left, the window and 32,704 bytes |
| SshClient.SshClient.OnWriteSent | src/ssh/connection.ts:270-279 | the window is charged once the chunk's send settled |
| SshClient.SshClient.OnResumed | src/ssh/connection.ts:264-267 | a woken writer looks at window and closed again |
| SshClient.SshClient.Finish | src/ssh/connection.ts:311-318 | once only, waking whoever waits |
| SshClient.SshClient.Close | src/ssh/connection.ts:298-308 | close() up to its await |
| SshClient.SshClient.OnCloseSent | src/ssh/connection.ts:298-308 | close() finishes whether or not its send failed |
| SshClient.SshClient.ResizeTerminal | src/ssh/connection.ts:282-296 | sends the new size while open |
| RateLimits.EvictionIsInvisible | src/rate-limit.ts:55-144 | over any run, a limiter whose alarm fires at arbitrary times answers every call as one that never evicts |
| RateLimits.SimilarStep | src/rate-limit.ts:55-120 | states that agree up to spent windows and past blocks answer alike and stay so |
| RateLimits.AlarmInvariant | src/rate-limit.ts:122-143 | stored data has an alarm pending no earlier than 60 s after all of it is stale, so a firing that is not early empties storage |
| RateLimits.EscalationBound | src/rate-limit.ts:72-110 | with strikes of weight 2 or more after an unblocked status and no pardon, at most 25 land in any 86,400 s, across alarms |
| RateLimits.EscalationBoundIsTight | src/security/suspicion.ts:20-25 | a gated run with 25 strikes in one day exists, and they take just 45,600 s |
| RateLimits.AnswersFollowHistory | src/rate-limit.ts:72-110 | after any run, evictions and pardons included, the answers to a strike and to a question are those that the times and weights of the strikes since the last pardon alone define: score, decay after 86,400 s, and the latest end of all blocks earned |
| RateLimits.SentenceIsServed | src/security/suspicion.ts:20-25 | a strike that comes unblocked is answered by no block below 10 points, by 300 s from 10, 3,600 s from 25 and 86,400 s from 50 |
| RateLimits.BlocksEscalate | src/rate-limit.ts:72-98 | where strikes come only unblocked, one that leaves 10 to 24 points is followed by no other for 300 s, 25 to 49 by none for 3,600 s, 50 or more by none for 86,400 s |
| RateLimits.StrikesAreSpaced | src/rate-limit.ts:72-98 | any 25 such strikes in a row of weight 2 or more take at least 45,600 s, decay included |
| RateLimits.BlockHolds | src/rate-limit.ts:72-110 | a block reported to T is reported at every time before T, whatever happens short of a pardon |
| RateLimits.HitsFollowWindows | src/rate-limit.ts:55-115 | the replies are those of the windows that the times of the hits since the last reset alone define: the first limit hits of each allowed, the others told when it ends |
| RateLimits.FixedWindowBound | src/rate-limit.ts:55-69 | since the last reset any interval one window long holds at most twice the limit of allowed hits |
| RateLimits.RateLimiter.HitNow | src/rate-limit.ts:55-69 | one hit, as the specification |
| RateLimits.RateLimiter.StrikeNow | src/rate-limit.ts:72-98 | one strike, as the specification: the score after decay, and without a block pending the wait that score earns |
| RateLimits.RateLimiter.BlockStatusNow | src/rate-limit.ts:101-110 | the status, changing nothing |
| RateLimits.RateLimiter.ScheduleCleanup | src/rate-limit.ts:122-126 | the alarm only ever moves later |
| RateLimits.RateLimiter.AlarmFires | src/rate-limit.ts:132-143 | evicts what is stale and rearms when something is left |
| Sessions.ClaimGrantedExactly | src/session.ts:74-97 | a claim is granted exactly when none was before, the object is live, and the claimant is the first configured owner within a minute of that configuration |
| Sessions.ClaimedOnce | src/session.ts:88-97 | at most one claim is granted in any run |
| Sessions.TornDownExactly | src/session.ts:88-97 | after any run the object is torn down exactly if the browser left, a connect failed, the owner claimed more than a minute after the configuration, or an alarm found it unopened a minute after that, unused for ten minutes or open for an hour |
| Sessions.TornDownInTime | src/session.ts:219-240 | if alarms are at most slack late, a live session is never more than slack past 61 s from its first configuration if never opened, or past its longest duration from the request answered 101 and its idle limit from the latest message, output or opening, each plus one alarm interval; a live object has an alarm pending exactly when configured |
| Sessions.AlwaysClocked | src/session.ts:99-126 | a live object has a socket exactly if some request was answered 101, and its two clocks are the times of that request and of the latest use |
| Sessions.HeldAfterTeardown | src/session.ts:128-172 | a torn-down object holds parameters again exactly when configured anew or a pending connect succeeds, and a client exactly in the second case |
| Sessions.TeardownUndone | src/session.ts:128-172 | configure, open, browser gone, connected: the torn-down object holds parameters and a client |
| Sessions.NothingHeldAfterTeardown | src/session.ts:246-265 | with no connect pending at teardown and no new configuration, nothing is held in any continuation |
| Sessions.SshSession.ConfigureSession | src/session.ts:74-81 | one configure, refused when already configured |
| Sessions.SshSession.ClaimTicket | src/session.ts:88-97 | one claim, tearing down when too late |
| Sessions.SshSession.OpenSocket | src/session.ts:99-126 | one upgrade request: 426, 409, or 101 with the connect under way |
| Sessions.SshSession.ConnectSettled | src/session.ts:128-172 | success keeps the client and drops the credential, failure tears down |
| Sessions.SshSession.AlarmFires | src/session.ts:219-240 | tears down what is over its limits and rearms the others |
| Sessions.SshSession.TearDown | src/session.ts:246-265 | once only, clearing parameters, client, socket, question and alarm |
| LoginSessions.RefinesExactSliding | src/auth/session.ts:50-73 | a token resolves only within both exact lifetimes and to its owner, and does resolve until the hard lifetime ends or a minute before the exact idle one does |
| LoginSessions.MinuteIsLost | src/auth/session.ts:66-71 | the minute cannot be improved on |
| LoginSessions.AlwaysTrails | src/auth/session.ts:34-73 | the stored time of last use trails the exact one by at most 60 s in every run |
| LoginSessions.RejectedStaysRejected | src/auth/session.ts:50-65 | a token turned down once is turned down ever after |
| LoginSessions.SignedOutEverywhere | src/auth/session.ts:79-82 | after signing out everywhere no token resolves to that user until the next sign-in |
| LoginSessions.SessionTable.CreateSession | src/auth/session.ts:34-44 | inserts one row with both lifetimes started |
| LoginSessions.SessionTable.LookupSession | src/auth/session.ts:50-73 | resolves, slides or deletes, as the specification |
| LoginSessions.SessionTable.DestroySession | src/auth/session.ts:75-77 | removes that token's row |
| LoginSessions.SessionTable.DestroyAllSessions | src/auth/session.ts:80-82 | removes every row of that user and no other |
| Credentials.DekIsConserved | src/api/auth.ts:91-216 | however logins, re-hashes and password changes interleave, the last UPDATE's password logs in and yields the key minted at registration, no accepted password yields another, every cookie carries it, and every secret saved under any cookie opens |
| Credentials.AcceptedExactly | src/api/auth.ts:123-134 | after any run, of passwords that do not collide exactly that of the last UPDATE is accepted, and the broken-row answer is never given |
| Credentials.UndoneExactly | src/db/users.ts:107-129 | a password can be replaced without a new request for a change exactly when a stale request is still to write another |
| Credentials.RehashUndoesChange | src/api/auth.ts:137-139 | a login's re-hash that lands after a password change brings the old password back |
| Credentials.RoundsAddUp | src/auth/password.ts:53-70 | the chained calls add up to the iteration count, none above 100,000, and as few as possible |
| Credentials.ChainContinues | src/auth/password.ts:53-70 | deriving with more iterations continues the chain from the output of a whole number of full calls |
| Credentials.Pbkdf2Steps | src/auth/password.ts:53-70 | up to 100,000 iterations are one call; of more, the first 100,000 give the secret the others go on from, under the same salt |
| Credentials.DerivePbkdf2 | src/auth/password.ts:53-70 | the loop computes that chain |
| Credentials.Account.Register | src/api/auth.ts:63-65 | verifier and wrap of one password at 600,000 iterations, 32 bytes each, under two salts of their own, and the minted key in the cookie |
| Credentials.Account.Login | src/api/auth.ts:123-139 | login after its read: 401, 500, or the key, with verifier and wrap made anew, under new salts, exactly when the count is below 600,000 |
| Credentials.Account.ChangePassword | src/api/auth.ts:197-211 | a password change after its read: the same key wrapped anew with the new verifier, under two new salts |
| Credentials.Account.UpdateCredentials | src/db/users.ts:107-129 | verifier and wrap are replaced together |
| Credentials.Account.SaveSecret | src/auth/dek.ts:74-81 | a secret is sealed under the key of the cookie that came with the request |

## Left out

- Writes.SendWindowBound: holds of frugal runs, because the window is charged after the awaited send; `Writes.OverrunExactly` says that of other runs it fails.
- Writes.WritesSendPrefixes: requires that no chunk is taken while the window is negative; `Writes.PrefixesExactly` says that of all other runs it fails, and `Overlaps.OverlapRepeats` is one.
- Flow.CreditComesBack: holds with servers that send no data before they confirm the channel; `Flow.CreditIsConserved` accounts for the others, and `Flow.CreditCanStray` shows what they lose.
- Flow.CreditIsConserved: the peer's maximum packet size is read and dropped by the code and plays no part; nor is the limit of 2^32 - 1 on the remote window.
- Framing.ClearFrameRoundTrip: payloads of 2^32 - 32 bytes or more, whose length field would wrap, are excluded.
- Framing.GcmFrameRoundTrip: the same payloads are excluded.
- LoginSessions.RefinesExactSliding: a lookup's SELECT and its UPDATE or DELETE are one step; two lookups of one token that overlap could write an older time over a newer one.
- Packets.Packets.EnableGcm: called at most once on an object, as the handshake does.
- Packets.Packets.Destroy: cancelling the stream and closing the writer are not modelled; reads and writes that fail afterwards are events of the runs.
- Packets.Packets.Receive: one step, so destroy() is before or after a read of a packet, not inside it.
- WholeClient.ReadClient: the payloads are within the receiving limits, which the sending side does not enforce; runs with a request for an answer between NEWKEYS and GCM are left to `NewKeys.ClearAfterNewKeysExactly`.
- SshClient.SshClient.Finish: that it destroys the packet layer is modelled in `Connection` (`Connection.NothingLeavesAfterTheEnd`); closing the socket is not.
- Sessions.SshSession.TearDown: one step, without closing the client and the socket and without the awaits between.
- Credentials.Account.Login: the refusal of missing and disabled accounts, which ends a login before the steps modelled here.
- Credentials.Account.ChangePassword: the end of all sessions that follows is `LoginSessions.SessionTable.DestroyAllSessions`, and is not tied to the password change.
- Connection.WireFollowsClient: the channel's tasks may hear of a send before it has settled, which allows more runs than the code has.
- Sessions.TornDownInTime: a handler is one step; the awaits inside teardown are not broken up, and what its closing of the socket and of the client does to them is not followed.
- AES-GCM, SHA-256, PBKDF2, X25519 and Ed25519 are functions with the laws named above; WebCrypto's algorithm-name fallbacks and the parsing of private key files are not modelled.
- UTF-8, base64 and cookies: strings are byte strings, and a cookie is the key it carries.
- Aliasing: `Writer` keeps the arrays it is given and `Reader` returns views; here both are values.
- handshake(): its local variables are the fields of one object, cut at the awaits, so its loops are runs of steps; mid-session rekeying is refused by the code and by the model.
- Message texts, `AuthError` and `HostKeyError` as distinct errors, JSON control messages, WebSocket frames, and what the browser sees.
- Timing: constant-time comparison and `burnEquivalentTime`.
- The handlers' rate limiting, invitations, audit trail and breach check around register, login and password change; each ends a request before the steps modelled here or adds a row elsewhere.
- `suspicionWeight` and `socketSuspicionWeight`, the keys that `rate-limit.ts` routes by, `src/net/guard.ts`, the servers and invites tables, HTTP plumbing, static headers and the web client: case tables and record keeping that would add only easy members.
