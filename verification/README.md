# Ross control plane, runtime and asset writers: a verified model

This project models, in Dafny, the parts of the Ross repository whose behaviour is hardest to
see by reading, and proves what they promise. It covers five groups.

* **PNG and ICO writers** (`scripts/generate-logo-assets.mjs`). `Checksum.dfy` defines polynomials
  over GF(2) as bit strings, division by the CRC-32 generator, and the bitwise loop on `bv32`; the
  loop is proved to compute the remainder, and to detect every burst of up to 32 bits.
  `Png.dfy` writes chunks, scanlines, files and icons in place, and proves them inverse to readers
  written from sections 5.3, 9.2 and 11.2.2 of the PNG specification.
* **WebSocket framing** (`ross_ai/websocket.py`) and the read loop (`ross_ai/platform_server.py`).
  `WebSocket.dfy` proves the in-place decoder against frames as section 5.2 of RFC 6455 lays them
  out; `SocketLoop.dfy` proves that the loop does not depend on how bytes were cut into reads.
* **Worker runtime** (`supervisor.py`, `workers.py`). `Runtime.dfy` is a state machine whose steps
  run from one `await` to the next, with start, stop, restart, crash, cancellation and backoff.
  `RuntimeGuards.dfy` proves how far each guard of those steps is needed, `RuntimeHealing.dfy` that
  the monitor revives every worker, and `Supervisor.dfy` performs the steps in place, in a class.
* **Control plane**. `Store.dfy` holds the stored data and the closures given to
  `JsonStore.update`; `Platform.dfy` says which closures a request calls for; `Services.dfy` and
  `Handlers.dfy` are the services and request handlers as the source runs them, step by step.
  `Guarantees.dfy`, `Ledger.dfy`, `Concurrency.dfy`, `Histories.dfy`, `SecondFactor.dfy`,
  `SecondFactorRaces.dfy`, `Progress.dfy` and `Accounts.dfy` state what whole runs keep, much of it
  for every interleaving of concurrent requests with reads as stale as can be; `Requests.dfy` says
  what single requests come to, in values and not in closures.
  `Sessions.dfy`, `Otp.dfy` and `RateLimiter.dfy` compare the tables kept in place with reference
  definitions on the history alone; `Roles.dfy` holds the permission tables.
* **Codes**. `Luhn.dfy`, `Totp.dfy`, `HtmlEscape.dfy`, over the text operations of `Text.dfy`.

`Bytes.dfy` and `Outcomes.dfy` hold byte strings and result types. `dafny verify dfyconfig.toml`
checks the whole project.

## How the model is set up

Operations that change state in place are methods of classes, or methods on arrays, proved equal
to a function of the old state; the promises are lemmas about that function and invariants over
runs. The central link for the control plane is `Handlers.Handler.Handle`: a handler that reads the
store again after each of its own steps leaves exactly the store that its plan, made from the store
the request found, calls for. A closure that raises leaves the store as it was.

Three notions of a run are used. `Platform.Serve` answers requests one at a time.
`Concurrency.Concurrent` lets the closures of concurrent requests reach the store in any order;
each is given by the handler of some request, whose reads for the session, for the profile and in
the service may each be as old as they like. `Guarantees.Raced` only asks that each closure was
licensed by some earlier store. `Histories.ServeIsRaced` and `Concurrency.ConcurrentIsRaced` show
the first two to be cases of the third, so that what is proved of it holds of both.

Hashing, HMAC, PBKDF2 verification, compression and random values are parameters, universally
quantified; laws are assumed only where a lemma names them in a `requires`: lossless compression,
`Accounts.Hashing` (a password verifies against a hash exactly when it is the one that was hashed)
and `Otp.TellsApart` (codes under one salt have equal digests exactly when they are equal).

Formats and constants that two sides share are stated a second time in plain numbers, so that an
error in the shared definition shows: `WebSocket.FrameInNumbers` and `WebSocket.MaskedHello`,
`Png.FileInNumbers`, `Totp.CodeInNumbers` and `Totp.RfcCode`, `Checksum.CheckValue`,
`Luhn.KnownNumbers`, `Roles.PermissionsByRank`, `Platform.PriceList`.

## Where the promise fails, and exactly when

* PNG: the writer accepts any 32-bit length. A file is read back if and only if width, height and
  the compressed data are within the format's limits (`Png.PngRoundTrip`); an ICO side is recorded
  correctly if and only if it is 1 to 256 (`Png.IconRoundTrip`). `Png.EmptyImageRefused` and
  `Png.LargeIconMisread` are inputs beyond those limits that the writers accept.
* WebSocket: a JSON message that is not an object, or on which the parser raises anything but its
  own error, ends the loop by an exception, since the handler catches only parse errors; `SocketLoop.CrashExact` says for which streams, and
  `SocketLoop.ArrayCrashes` gives one. The docstring of `decode_frames` speaks of text frames; the
  code also delivers binary and continuation frames, each as a message of its own
  (`WebSocket.BinaryIsMessage`), and the model follows the code. `WebSocket.TextOnlyExact` and
  `WebSocket.TextFramesExact` say when only text frames are delivered.
* Runtime: a `start` keeps the promise of one recorded task per worker exactly when it is a no-op,
  no `stop` is waiting, or there are no in-process workers (`RuntimeGuards.StartGuardIsExact`); a
  respawn by `restart_worker` exactly under the condition of `RuntimeGuards.RespawnExact`.
  `RuntimeGuards.StartRaceReachable` and `RuntimeGuards.RestartRaceReachable` are runs from the
  initial state that end with two live tasks for one worker.
* Roles: with concurrent requests the log is justified exactly when every assignment that is written
  finds its actor still allowed to make it (`Guarantees.JustifiedExact`). An assignment decided
  before its actor was demoted is the counterexample (`Concurrency.StaleAssignmentServed`). It
  takes an owner or an administrator, which no run from the empty store produces: such a store
  has to be prepared from outside. From the empty store the log is always justified.
* Billing: the payment page's amount is what is then charged exactly under the condition of
  `Ledger.ShownIsCharged`, because the page compares the cadence before it is normalised;
  `Ledger.ShownMonthlyChargedAnnually` is a run in which they differ.
* PNG chunks: damage goes unnoticed exactly when the checksum has changed by the register run from
  zero on the damage to type and data (`Png.DamageUnnoticed`). It is always noticed inside 32 bits
  of type and data, and in the checksum alone; four bytes across the border can go unnoticed, in
  every chunk with two bytes of data (`Png.BorderDamage`, `Png.BorderDamageUnnoticed`).
* Sign-in: a GitHub sign-in creates a session without a second factor. `SecondFactor.WhoSignsIn`
  lists the four ways; `SecondFactor.SecondFactorRequired` is about the other three. With concurrent
  requests one challenge can sign in twice (`SecondFactorRaces.TwoSessions`).

## Model

| member | source | states |
|---|---|---|
| Checksum.CrcIsRemainder | scripts/generate-logo-assets.mjs:28-35 | for every buffer, the complement of the checksum is the remainder, on division by the CRC-32 generator, of the message with its first 32 bits inverted and 32 zeros appended |
| Checksum.CrcFromRemainder | scripts/generate-logo-assets.mjs:28-35 | the checksum is the only word with that property |
| Checksum.RemainderUnique | scripts/generate-logo-assets.mjs:28-35 | a dividend has at most one remainder, so the definition used above is well defined |
| Checksum.Division | scripts/generate-logo-assets.mjs:32 | feeding bits to the shift register is long division: quotient times generator plus register gives the dividend |
| Checksum.PolynomialBits | scripts/generate-logo-assets.mjs:32 | the constant 0xEDB88320 is the generator given by its exponents, lowest bit first and without its leading term |
| Checksum.CrcRegister | scripts/generate-logo-assets.mjs:28-35 | the word-wise table-free loop holds the serial register after all message bits |
| Checksum.UpdateConcat | scripts/generate-logo-assets.mjs:30-33 | the running state composes over concatenation |
| Checksum.WindowDetected | scripts/generate-logo-assets.mjs:30-33 | a difference confined to 32 consecutive bits never returns the register to zero |
| Checksum.BurstDetected | scripts/generate-logo-assets.mjs:28-35 | different buffers of equal length that differ only inside 32 consecutive bits have different checksums |
| Checksum.ByteBurstDetected | scripts/generate-logo-assets.mjs:28-35 | in particular any damage inside four consecutive bytes |
| Checksum.BurstBoundTight | scripts/generate-logo-assets.mjs:28-35 | a 33-bit burst that goes unnoticed, so the bound is exact |
| Checksum.Crc32 | scripts/generate-logo-assets.mjs:28-35 | the two nested loops compute the checksum characterised above |
| Checksum.CheckValue | scripts/generate-logo-assets.mjs:28-35 | the checksum of the digits 1 to 9 is 0xCBF43926, the published check value of CRC-32 |
| Png.Chunk | scripts/generate-logo-assets.mjs:37-45 | length, type, data and checksum of them in order; a length over 32 bits raises |
| Png.ChunkRoundTrip | scripts/generate-logo-assets.mjs:37-45 | a conforming reader gets type, data and what follows back if and only if the data is within the format's limit |
| Png.DamageExact | scripts/generate-logo-assets.mjs:37-45 | whatever happened to type, data and checksum, the reader accepts exactly when the field found is the checksum of the type and data found |
| Checksum.CrcDifference | scripts/generate-logo-assets.mjs:28-35 | checksums of messages of equal length differ by the register run from zero on the difference of the messages, whatever these are |
| Png.DamageUnnoticed | scripts/generate-logo-assets.mjs:37-45 | damage goes unnoticed if and only if the checksum has changed by the register run from zero on the damage to type and data; what the chunk held does not matter |
| Png.BorderDamage | scripts/generate-logo-assets.mjs:37-45 | so in every chunk with two bytes of data one change of the last two, with one of the checksum, goes unnoticed |
| Png.DamagedChunkRefused | scripts/generate-logo-assets.mjs:37-45 | damage to type or data within 32 consecutive bits makes the reader refuse the chunk |
| Png.DamagedFieldRefused | scripts/generate-logo-assets.mjs:42-44 | so does any damage to the checksum field alone |
| Png.BorderDamageUnnoticed | scripts/generate-logo-assets.mjs:42-44 | two last data bytes and two first checksum bytes, damaged together, that the reader accepts |
| Png.FillScanlines | scripts/generate-logo-assets.mjs:48-53 | the rows copied into the buffer in place are the image's scanlines, each behind a zero filter byte |
| Png.ScanlineRoundTrip | scripts/generate-logo-assets.mjs:48-53 | un-filtering the scanlines gives the pixels back |
| Png.EncodePng | scripts/generate-logo-assets.mjs:47-66 | the file the writer returns, or the error it raises, for every image |
| Png.PngRoundTrip | scripts/generate-logo-assets.mjs:47-66 | a reader that decides depth and colour type from the table of the specification recovers dimensions and pixels if and only if the image is within the format's limits, and refuses the file otherwise |
| Png.FileInNumbers | scripts/generate-logo-assets.mjs:47-66 | every file that is written, in numbers: the eight signature bytes, length 13 and IHDR, width and height, the bytes 8, 6, 0, 0, 0, its checksum, then IDAT with the compressed scanlines, then the twelve bytes of IEND |
| Png.ScanlineInNumbers | scripts/generate-logo-assets.mjs:48-53 | each row begins with a zero byte and its bytes follow, each where the image has it |
| Png.EmptyImageRefused | scripts/generate-logo-assets.mjs:47-66 | an image without columns that is written and then refused |
| Png.EncodeIcoWithPng | scripts/generate-logo-assets.mjs:308-321 | the icon bytes, or the error for a file over 32 bits long |
| Png.IconRoundTrip | scripts/generate-logo-assets.mjs:308-321 | the embedded file is always recovered; each side is if and only if it is 1 to 256 |
| Png.IconInNumbers | scripts/generate-logo-assets.mjs:308-321 | every icon file in numbers: one image, each side or 0 from 256 on, one plane, 32 bits, the length of the embedded file and its offset 22 |
| Png.LargeIconMisread | scripts/generate-logo-assets.mjs:314-315 | an icon of 257 by 257 is recorded as one of 256 by 256 |
| WebSocket.EncodeIsTextFrame | ross_ai/websocket.py:20-29 | the encoder writes a valid unmasked final text frame, for all three length classes |
| WebSocket.EncodeShortest | ross_ai/websocket.py:23-28 | no valid frame with the same data, masked or not, is shorter |
| WebSocket.EncodeInNumbers | ross_ai/websocket.py:20-29 | what is sent begins with 129 and an unmasked length in its shortest class, says how long the data is, and ends with the data |
| WebSocket.ReadWire | ross_ai/websocket.py:40-66 | every valid frame, in any length form and under any mask, is read back whatever follows it |
| WebSocket.ReadIsWire | ross_ai/websocket.py:40-66 | whatever is read off a buffer was a valid frame followed by the rest, so the decoder accepts exactly the frames |
| WebSocket.FrameInNumbers | ross_ai/websocket.py:40-66 | on any buffer, with the key at index h and n the length in plain numbers by its class: a frame is read exactly when h + 4 + n bytes are there (h + n without a mask), its opcode is the first byte modulo 16, and payload byte i is byte h + 4 + i xor byte h + i % 4 |
| WebSocket.MaskedHello | ross_ai/websocket.py:64-66 | the masked frame of section 5.7 of RFC 6455 decodes to "Hello" |
| WebSocket.OpcodesInNumbers | ross_ai/websocket.py:67-73 | opcodes 0, 1 and 2 give messages, 8 ends the stream, every other frame is dropped |
| WebSocket.ReadExtended | ross_ai/websocket.py:58-63 | later bytes do not change a frame already complete |
| WebSocket.ProperPrefixIncomplete | ross_ai/websocket.py:40-59 | no proper prefix of a frame is a frame; the decoder leaves it untouched |
| WebSocket.MaskedTwice | ross_ai/websocket.py:64-66 | masking is its own inverse under every four-byte key |
| WebSocket.Unmask | ross_ai/websocket.py:64-66 | the in-place loop leaves each byte xor the key byte at its index modulo four |
| WebSocket.TakeFrame | ross_ai/websocket.py:40-66 | one frame is taken off the front of the buffer, or the buffer is left as it was |
| WebSocket.DecodeFrames | ross_ai/websocket.py:36-74 | the loop over the buffer returns the messages and leaves the remainder of the reference decoder, and ends |
| WebSocket.DecodeStream | ross_ai/websocket.py:36-74 | decoding frames followed by an incomplete tail gives their data payloads in order, skips the rest, and stops at the first close frame with an empty message |
| WebSocket.EveryBufferIsStream | ross_ai/websocket.py:36-74 | every buffer is such a stream, so this describes decoding on all inputs |
| WebSocket.RoundTrip | ross_ai/websocket.py:36-74 | any list of text frames, masked or not, decodes to exactly its payloads with nothing left |
| WebSocket.EncodedRoundTrip | ross_ai/websocket.py:20-74 | decoding what was encoded gives exactly the list of messages with nothing left |
| WebSocket.DecodeAppended | ross_ai/websocket.py:36-74 | decoding continues where it stopped when bytes arrive later, unless a close frame was complete, after which they are never looked at |
| WebSocket.TextOnlyExact | ross_ai/websocket.py:67-73 | the messages are the payloads of the text frames before the first close, and an empty one for it, if and only if no binary or continuation frame precedes that close |
| WebSocket.TextFramesExact | ross_ai/websocket.py:67-73 | decoding gives just the payloads of the text frames and the tail if and only if there is neither such a frame nor a close |
| WebSocket.BinaryIsMessage | ross_ai/websocket.py:72-73 | a binary frame that comes out like a text frame |
| SocketLoop.HandleMessages | ross_ai/platform_server.py:1416-1436 | the inner loop's replies and how it ended |
| SocketLoop.ReadLoop | ross_ai/platform_server.py:1409-1438 | the outer loop's replies and end for every sequence of reads |
| SocketLoop.ClosedStops | ross_ai/platform_server.py:1417-1420 | after a complete close frame the loop stops, so bytes behind it are never decoded |
| SocketLoop.RestIncomplete | ross_ai/websocket.py:36-74 | the carried remainder holds no complete frame |
| SocketLoop.ServeWhole | ross_ai/platform_server.py:1409-1438 | non-empty reads have the effect of the whole stream in one piece, up to the first empty message |
| SocketLoop.CutsAgree | ross_ai/platform_server.py:1409-1438 | any two ways of cutting the same bytes into reads give the same replies and the same end |
| SocketLoop.LoopOutcome | ross_ai/platform_server.py:1409-1438 | for every sequence of reads, the outcome is that of the joined bytes before the end of the file |
| SocketLoop.RepliesExact | ross_ai/platform_server.py:1425-1436 | up to the message that ends the loop, the replies are one hello-ack for each hello and one pong for each ping, in order, and nothing else |
| SocketLoop.StopExact | ross_ai/platform_server.py:1417-1420 | a batch of messages stops the loop exactly when it holds an empty one with no fatal one before it |
| SocketLoop.CrashExact | ross_ai/platform_server.py:1421-1435 | the loop ends by an exception if and only if some message makes the parser raise anything but its own error, or holds a value that is not an object, and none before it does or is empty |
| SocketLoop.ArrayCrashes | ross_ai/platform_server.py:1421-1425 | one text frame with an empty JSON array is enough |
| RateLimiting.RateLimiter.Allow | ross_ai/hardening.py:40-49 | with any clock, the answer of the queue without its expired front, which becomes the new queue; while the clock has not run backwards, a call is admitted exactly when fewer than the limit of the key's accepted hits lie in the window |
| RateLimiting.LimiterIsReference | ross_ai/hardening.py:40-49 | with a clock that does not run backwards, popping expired hits lets through exactly what a limiter that never forgets does |
| RateLimiting.QueueHolds | ross_ai/hardening.py:43-48 | with any clock, a queue is at most the limit long and holds the latest times its key was let through, losing one only after some call of the key saw it expired |
| RateLimiting.Spacing | ross_ai/hardening.py:40-49 | accepted hits of a key that are the limit apart are more than the window apart, over every run |
| RateLimiting.AdmitsExact | ross_ai/hardening.py:40-49 | in an ordered history a call is refused exactly while the last `limit` accepted hits all lie within the window |
| RateLimiting.KeysIndependent | ross_ai/hardening.py:43 | calls for other keys change nothing |
| RateLimiting.RefusedLeavesNoTrace | ross_ai/hardening.py:46-47 | the run without a refused call accepts the same hits for every key |
| RateLimiting.AcceptedSorted | ross_ai/hardening.py:44-48 | accepted hits are in time order |
| RateLimiting.QueueLength | ross_ai/hardening.py:44-47 | a purged queue is as long as the number of accepted hits in the window |
| Luhn.LuhnOk | ross_ai/billing.py:30-42 | the left-to-right parity loop decides the right-to-left definition of ISO/IEC 7812-1, for every text |
| Luhn.SubstitutionDetected | ross_ai/billing.py:34-42 | every single wrong digit is detected |
| Luhn.AdjacentSwap | ross_ai/billing.py:34-42 | a swap of neighbours goes unnoticed if and only if they are equal or 0 and 9 |
| Luhn.TwinError | ross_ai/billing.py:34-42 | a twin replaced by another twin goes unnoticed if and only if they are 22/55, 33/66 or 44/77 |
| Luhn.OneCheckDigit | ross_ai/billing.py:30-42 | each prefix of at least 12 digits has exactly one completing digit |
| Luhn.TwoMore | ross_ai/billing.py:30-42 | two more digits d and e on the right add d doubled, less 9 above 9, and e |
| Luhn.KnownNumbers | ross_ai/billing.py:30-42 | 4111 1111 1111 1111 passes and a changed last digit does not; thirteen zeros pass, twelve do not |
| Totp.DecimalValue | ross_ai/otp.py:49 | a six-digit code is digits only and reads as its number |
| Totp.TruncateInNumbers | ross_ai/otp.py:47-48 | with o the last byte of the digest modulo 16, truncation takes the bytes o to o + 3 as a number, without the top bit |
| Totp.CodeInNumbers | ross_ai/otp.py:42-49 | the code read as a number is that number modulo a million |
| Totp.RfcCode | ross_ai/otp.py:42-49 | the digest of section 5.4 of RFC 4226 gives 872921 |
| Totp.VerifyTotp | ross_ai/otp.py:52-60 | accepts exactly a six-digit code of the previous, present or next step; raises exactly for a six-digit entry less than a step after the epoch |
| Totp.CodesCompareAsNumbers | ross_ai/otp.py:47-49 | codes are equal as text exactly when the truncated values agree modulo a million |
| Totp.AcceptedWithinStep | ross_ai/otp.py:42-60 | a code made at one time is accepted at every time at most 30 seconds away |
| Totp.AcceptedOnlyNearby | ross_ai/otp.py:42-60 | an accepted code is the code of some time less than 60 seconds away |
| HtmlEscape.EscapeHtmlIsEsc | scripts/build-amplify-portal.mjs:4-11 | the five replaces in sequence equal the single pass on every string |
| HtmlEscape.AmpersandFirst | scripts/build-amplify-portal.mjs:6-10 | an order of the five replaces has that property if and only if the ampersand comes first |
| HtmlEscape.UnescapeEsc | packages/ui-design-system/public/product-tools.js:3 | an unescaper recovers every input |
| HtmlEscape.EscapeHtmlInjective | scripts/build-amplify-portal.mjs:4-11 | different strings have different escapes |
| HtmlEscape.EscIsInert | packages/ui-design-system/public/product-tools.js:3 | no markup character is left, and every ampersand starts one of the five entities |
| HtmlEscape.EscOneMore | scripts/build-amplify-portal.mjs:4-11 | one more character adds its entity, spelled out for the five of them, or itself |
| Runtime.StepInv | apps/ross-runtime-portal/app/runtime/supervisor.py:36-112 | every guarded step of start, stop, restart, worker, monitor or scheduler keeps the invariant |
| Runtime.RunsAreSafe | apps/ross-runtime-portal/app/runtime/supervisor.py:36-112 | in every guarded run each live worker is the recorded one, the monitor sleeps at most 30 seconds and, unless cancelled, only for a worker that is down, and a stopped supervisor has nothing live |
| Runtime.JobLedger | apps/ross-runtime-portal/app/runtime/workers.py:46-74 | in every run, guarded or not, claims and settlements of a task alternate, each settlement is of the job claimed, and claimed = completed + failed + lost + in hand, with none lost unless settling itself raises |
| Runtime.StopSettlesJobs | apps/ross-runtime-portal/app/runtime/supervisor.py:56-70 | in every run, when a stop returns, each job that a task it waited for has claimed is settled |
| Runtime.StepTyped | apps/ross-runtime-portal/app/runtime/supervisor.py:36-112 | every possible step, guarded or not, keeps the tables well formed: recorded tasks exist and are of their kind, and each task is where its kind can be |
| Runtime.RecordedMeansOne | apps/ross-runtime-portal/app/runtime/supervisor.py:72-74 | so there is at most one live task per worker |
| Runtime.StopLeavesNothing | apps/ross-runtime-portal/app/runtime/supervisor.py:56-70 | when a stop returns nothing is live and no claimed job is in hand |
| RuntimeGuards.GuardedRunsAreExact | apps/ross-runtime-portal/app/runtime/supervisor.py:36-112 | a run is guarded if and only if none of its states has lost, for some guarded continuation, the promise that every live worker is recorded and a stopped supervisor has nothing live |
| RuntimeGuards.StartGuardIsExact | apps/ross-runtime-portal/app/runtime/supervisor.py:36-54 | a start keeps that promise over every guarded continuation, and one task per worker, if and only if it is a no-op, no stop is waiting, or there are no in-process workers |
| RuntimeGuards.StartDuringStop | apps/ross-runtime-portal/app/runtime/supervisor.py:36-70 | otherwise the waiting stop forgets the new tasks and the next start doubles a worker |
| RuntimeGuards.StartRaceReachable | apps/ross-runtime-portal/app/runtime/supervisor.py:36-70 | a run from the initial state, guarded up to one start, that ends with two live tasks for a worker |
| RuntimeGuards.SecondStopOpensWindow | apps/ross-runtime-portal/app/runtime/supervisor.py:56-70 | a second stop of a stopped supervisor leaves a stop waiting, so that a start is not guarded |
| RuntimeGuards.RespawnExact | apps/ross-runtime-portal/app/runtime/supervisor.py:84-87 | the spawn that ends a restart keeps the promise over every guarded continuation, and with in-process workers one task per worker, if and only if the supervisor runs, nobody stops it, the worker is down and no uncancelled monitor is about to revive it |
| RuntimeGuards.RestartGuardIsExact | apps/ross-runtime-portal/app/runtime/supervisor.py:76-88 | the same for a restart that waited for the old task |
| RuntimeGuards.RestartRaceReachable | apps/ross-runtime-portal/app/runtime/supervisor.py:76-112 | a run from the initial state, guarded up to the end of one restart of a crashed worker, that ends with two live tasks for it |
| RuntimeHealing.MonitorHeals | apps/ross-runtime-portal/app/runtime/supervisor.py:90-112 | from any state of any run, guarded or not, eight resumptions of a live monitor, without a fault, a stop or the end of a worker in between, leave every worker with a live task, whatever is started or restarted meanwhile |
| Runtime.BackoffBound | apps/ross-runtime-portal/app/runtime/supervisor.py:110 | crash backoff is 2 to 30 seconds |
| Runtime.BackoffValues | apps/ross-runtime-portal/app/runtime/supervisor.py:110 | the waits are 2, 4, 8, 16 and then 30 seconds |
| Runtime.CrashWaits | apps/ross-runtime-portal/app/runtime/supervisor.py:93-110 | a monitor that wakes counts one more restart of the first worker that is down, and of no other, and waits that long for it; with none down it goes back to sleep |
| Runtime.RevivalExact | apps/ross-runtime-portal/app/runtime/supervisor.py:110-111 | after the wait that worker has a new recorded task |
| Runtime.StartExact | apps/ross-runtime-portal/app/runtime/supervisor.py:36-54 | a first start makes one recorded task for each of the three workers, a monitor, and a scheduler when it is enabled |
| Runtime.StopAsks | apps/ross-runtime-portal/app/runtime/supervisor.py:56-66 | a stop sets the event and cancels exactly the recorded workers, the monitor and the scheduler that still run |
| Runtime.RestartExact | apps/ross-runtime-portal/app/runtime/supervisor.py:84-88 | a restart counts once, for its worker alone, and records one new task |
| Runtime.RetryBounds | apps/ross-runtime-portal/app/runtime/workers.py:69 | retry delays are 2 to 60 seconds and grow with the attempts |
| Runtime.RetryDoubles | apps/ross-runtime-portal/app/runtime/workers.py:69 | the first retry waits 2 seconds and each later one twice as long as the one before, up to 60 |
| Runtime.SettlementExact | apps/ross-runtime-portal/app/runtime/workers.py:58-70 | a job in hand is completed, failed with the delay of its attempts, failed with 2 seconds when cancelled, or lost when settling raises; only the first two let the task go on |
| Runtime.ClaimExact | apps/ross-runtime-portal/app/runtime/workers.py:46-57 | a job is claimed only at the head of the loop and never once the stop event is set |
| Runtime.EachClaimSettledOnce | apps/ross-runtime-portal/app/runtime/workers.py:46-74 | the next event of the claiming task settles that job, or the job is still in hand |
| Runtime.NoLosses | apps/ross-runtime-portal/app/runtime/workers.py:58-70 | over every run in which settling does not raise, handler failures, unknown job types and cancellations leave no job unsettled |
| Supervisor.RuntimeSupervisor.StartUp | apps/ross-runtime-portal/app/runtime/supervisor.py:36-54 | start is the state machine's step |
| Supervisor.RuntimeSupervisor.RequestStop | apps/ross-runtime-portal/app/runtime/supervisor.py:56-66 | stop up to its wait, marking in place every task it cancels |
| Supervisor.RuntimeSupervisor.FinishStop | apps/ross-runtime-portal/app/runtime/supervisor.py:67-70 | when the wait of a stop is over nothing is live, recorded or in hand, and every guarded continuation keeps the promise |
| Supervisor.RuntimeSupervisor.RequestRestart | apps/ross-runtime-portal/app/runtime/supervisor.py:76-88 | restart_worker up to its wait, or to its end when there is nothing to cancel |
| Supervisor.RuntimeSupervisor.FinishRestart | apps/ross-runtime-portal/app/runtime/supervisor.py:84-88 | the worker gets one new task, recorded, and every guarded continuation keeps the promise if and only if the unchecked condition held when the wait ended |
| Supervisor.RuntimeSupervisor.ScanWorkers | apps/ross-runtime-portal/app/runtime/supervisor.py:93-110 | the monitor's loop over the workers stops at the first one down, counts the restart and backs off |
| Supervisor.RuntimeSupervisor.WakeMonitor | apps/ross-runtime-portal/app/runtime/supervisor.py:91-112 | one waking of the monitor, with the spawn after its backoff |
| Supervisor.RuntimeSupervisor.RunWorker | apps/ross-runtime-portal/app/runtime/workers.py:46-75 | a job in hand is settled by exactly one event for that job, completed only if the handler was done and not cancelled; otherwise at most one job is claimed, none once a stop was asked for; a worker ends only by a cancellation, a stop or a fault; the log stays in balance |
| Sessions.LookupFromHistory | ross_ai/auth.py:220-250 | pruning is invisible: every lookup answers as a table that never forgets |
| Sessions.LookupMeans | ross_ai/auth.py:381-401 | a session is returned exactly when it was created under 12 hours earlier for that e-mail and neither replaced nor ended since |
| Sessions.CreationForgets | ross_ai/auth.py:381-401 | creating a session forgets exactly those that have expired |
| Otp.KeyInjective | ross_ai/otp.py:90 | different accounts or purposes never share a key, since purposes hold no colon |
| Otp.Budget | ross_ai/otp.py:111-149 | until the next issue, comparisons plus tries left never exceed the tries left at first, and at most one is a success, which is the last |
| Otp.BudgetAfterIssue | ross_ai/otp.py:75-149 | after an issue at most five comparisons and one success |
| Otp.KeysIndependent | ross_ai/otp.py:120-149 | operations on other keys change nothing |
| Otp.AcceptedMeans | ross_ai/otp.py:75-149 | over every run, a code is accepted exactly when it matches the latest issued one, at most ten minutes old, unused, with fewer than five entries counted |
| Otp.CodeDecides | ross_ai/otp.py:75-149 | with a digest that tells codes apart, over every run a code is accepted exactly when it is the six digits last issued for the key, at most ten minutes old, not entered since, with fewer than five entries since |
| Roles.HigherRolesExpand | ross_ai/rbac.py:33-87 | a role later in the order has every permission of the earlier ones |
| Roles.WhoAssigns | ross_ai/rbac.py:34-87 | exactly administrators and owners may assign roles |
| Roles.RoleNames | ross_ai/rbac.py:99-101 | which name is read as which of the six roles, however it is spaced and capitalised; any other is an operator |
| Roles.PermissionsByRank | ross_ai/rbac.py:33-87 | the whole table: a role has a permission exactly when it is first given at its place in the order or before |
| Text.NormalTwice | ross_ai/auth.py:65 | normalising an e-mail twice is normalising it once, on ASCII text, so stored accounts are found again |
| Text.StripMeans | ross_ai/auth.py:65 | stripping takes the white space around a text and nothing of the text |
| Text.LowerMeans | ross_ai/auth.py:65 | lower case, character by character, by number |
| Platform.EmailShape | ross_ai/auth.py:67-69 | an e-mail is valid exactly when there is a dot after its last "@" |
| Platform.PasswordShape | ross_ai/auth.py:52-57 | ten characters, among them a letter and a digit |
| Platform.PriceList | ross_ai/membership.py:8-109 | the four tiers with their prices; a year costs ten months |
| Platform.LastFourAre | ross_ai/billing.py:78 | the digits kept of a number are its last four, in order |
| Platform.NumberReads | ross_ai/billing.py:61 | a month is read with its first digit counting tens; zeros in front count nothing |
| Services.AuthService.Signup | ross_ai/auth.py:64-99 | a session exactly for a valid new e-mail and a valid password, and nothing changed otherwise; the new account is an unverified operator with that password and nothing else |
| Services.AuthService.Login | ross_ai/auth.py:101-126 | a password that verifies against the stored hash gives a challenge to an enrolled account, a session to any other, never both; any other password changes nothing |
| Services.AuthService.CompleteMfaLogin | ross_ai/auth.py:128-147 | a session exactly for a challenge still in force, which is used up; an expired one is only removed |
| Services.AuthService.GetMfaChallenge | ross_ai/auth.py:149-158 | the challenge in force; an expired one is removed |
| Services.AuthService.ConfirmMfaEnrollment | ross_ai/auth.py:192-214 | enrols exactly when the pending or else the active secret made the code, under that secret |
| Services.AuthService.BeginMfaEnrollment | ross_ai/auth.py:180-190 | raises without a change for an unknown account |
| Services.AuthService.GetSession | ross_ai/auth.py:234-250 | the session in force; an expired one is ended and logged |
| Services.AuthService.ChoosePassword | ross_ai/auth.py:272-309 | sets a password exactly where there is none yet and the new one is valid and confirmed |
| Services.AuthService.UpsertGithubUser | ross_ai/auth.py:311-358 | creates or links the account and signs it in; a new one is verified and has no password; no e-mail raises without a change |
| Services.OtpService.Verify | ross_ai/otp.py:111-149 | worked out while the record is changed, the answer is the one the table gave before: six digits that match the digest, in time, with fewer than five entries; an accepted, expired or over-tried code is gone, and no other key is touched |
| Services.BillingService.AttachMembership | ross_ai/billing.py:93-164 | activates exactly an accepted, known tier in a known cadence for a known account; any other leaves the store as it was |
| Services.TokenizeCard | ross_ai/billing.py:45-86 | a card exactly for a number that passes the check, a month from 1 to 12, a year of two or four digits, a code of three or four and a name, keeping the last four digits of the number |
| Services.RbacService.AssignRole | ross_ai/rbac.py:151-189 | assigns exactly when the actor may, the target exists, and only an owner makes an owner |
| Platform.PlanEntitled | ross_ai/platform_server.py:865-1336 | every closure a handler gives to the store is one its account is entitled to at the moment it runs |
| Handlers.Handler.Handle | ross_ai/platform_server.py:865-1336 | a request's steps, each on the store the one before left, amount to the plan made from the store the request found |
| Handlers.Handler.PostMfa | ross_ai/platform_server.py:1076-1121 | the second factor is checked, then the challenge looked up again and used up |
| Handlers.Handler.PostPayment | ross_ai/platform_server.py:1181-1242 | the election is cleared only when the membership was paid for |
| Handlers.Handler.PostVerifyEmail | ross_ai/platform_server.py:938-964 | an e-mail is marked verified only after its code was accepted |
| Handlers.Handler.GetSetupMfa | ross_ai/platform_server.py:491-514 | an enrolment begins only after e-mail and password, and only once |
| Handlers.BodyPlanAfterLookup | ross_ai/platform_server.py:122-129 | ending an expired session on lookup does not change what the request then does |
| Guarantees.StageNamesDestination | ross_ai/platform_server.py:210-221 | the stages are the onboarding pages in order |
| Guarantees.OnboardingUnderRaces | ross_ai/platform_server.py:210-221 | however requests race: a second factor, pending or active, implies a verified e-mail and a password; enabled means a stored secret; and no account's stage moves back |
| Guarantees.CommitOnward | ross_ai/auth.py:169-358 | no closure undoes a completed step or changes a password |
| Guarantees.AuditReplaysRoles | ross_ai/rbac.py:151-189 | folding the audit log over the initial roles gives every current role, however requests race |
| Guarantees.GrantsAreJustified | ross_ai/rbac.py:151-189 | with requests one at a time, each logged assignment was made by someone who, as replayed to then, could assign, and each grant of owner by an owner |
| Guarantees.JustifiedExact | ross_ai/rbac.py:151-184 | however requests race, the log is justified in that sense if and only if every assignment that is written finds its actor still allowed to make it |
| Guarantees.JustifiedFromOperators | ross_ai/rbac.py:151-156 | where nobody may assign roles at first, the log is justified under every race |
| Guarantees.OwnersOnlyFromOwners | ross_ai/rbac.py:151-156 | a platform without an owner never gets one, however requests race |
| Guarantees.NoEscalation | ross_ai/rbac.py:151-156 | where nobody may assign roles, no interleaving of requests changes one |
| Guarantees.StaleAssignment | ross_ai/rbac.py:151-184 | the interleaving in which an assignment by a demoted actor still goes through, from a store prepared with an owner |
| Concurrency.StaleAssignmentServed | ross_ai/platform_server.py:1244-1268 | two requests of signed-in users that produce it |
| Concurrency.ReadsAgree | ross_ai/platform_server.py:865-1336 | a handler whose reads are apart gives the closures of its plan when nobody writes in between |
| Concurrency.ConcurrentIsRaced | ross_ai/store.py:28-38 | every closure of concurrent handlers was licensed by a store that one of its reads saw, whatever was written between the reads |
| Concurrency.ConcurrentRunsAreSafe | ross_ai/platform_server.py:865-1336 | concurrent requests keep second factors, keys and the ledger in order, move no account's stage back, and leave a log that replays the roles |
| Concurrency.ConcurrentFromEmpty | ross_ai/platform_server.py:865-1336 | from the empty store moreover the log is justified and every account is an operator |
| Progress.ProgressExact | ross_ai/platform_server.py:938-1242 | a request moves an account to a later stage of onboarding if and only if it completes the account's present stage: no other request, of its own or of anybody else, does |
| Progress.UserAfterAll | ross_ai/auth.py:75-358 | what any sequence of closures makes of one account's record depends on that record and the closures about it alone |
| Guarantees.RacedNormal | ross_ai/auth.py:65 | accounts are only ever kept under normalised e-mails, however requests race |
| Ledger.LedgerUnderRaces | ross_ai/billing.py:93-164 | however requests race: an account has a membership exactly when it was charged, its last charge is for that membership at the tier's price, and charges and logged elections match one for one |
| Ledger.ChargedAsElected | ross_ai/platform_server.py:1181-1242 | an account is charged only by its own request, as it elected, with terms accepted and a number that passes the check |
| Ledger.ShownIsCharged | ross_ai/platform_server.py:1193-1194 | the amount shown is the amount charged if and only if the cadence is written "annual" or does not normalise to it |
| Ledger.ShownMonthlyChargedAnnually | ross_ai/platform_server.py:1171-1235 | an account that elects "Annual" is shown 149 and charged 1490 for the starter tier |
| Histories.ServeIsRaced | ross_ai/store.py:33-38 | answering requests one at a time is one of the interleavings |
| Histories.ReachableStores | ross_ai/platform_server.py:865-1336 | every store reached from the empty one is safe and balanced, its log replays to its roles, and all are operators |
| Histories.SignedInFromHistory | ross_ai/auth.py:234-250 | who is signed in follows from the requests answered so far, whatever was pruned |
| Histories.CodeFromHistory | ross_ai/otp.py:111-149 | the platform accepts a code exactly when the requests answered so far say that it is the latest, unexpired, unused and not over-tried |
| Histories.BudgetUnderRaces | ross_ai/otp.py:75-149 | however requests race, between two issues for an account and purpose at most five entries are compared and at most one is accepted, the last |
| Histories.CodeUnderRaces | ross_ai/otp.py:111-149 | however requests race, a code is accepted exactly when the closures run so far say that it is the latest, unexpired, unused and not over-tried |
| SecondFactor.WhoSignsIn | ross_ai/platform_server.py:871-1121 | a request creates a session only with one of four credentials: a new account, the password of an account that is not enrolled, a correct answer to a live challenge, GitHub's word; an answered challenge is used up |
| SecondFactor.SignsIn | ross_ai/auth.py:381-401 | conversely, with any of them the request does sign in, for twelve hours |
| SecondFactor.ChallengeOpened | ross_ai/auth.py:366-380 | an enrolled account's password opens a challenge that stays answerable for ten minutes |
| SecondFactor.ChallengeHistory | ross_ai/auth.py:366-380 | every stored challenge was opened by a sign-in with the account's password and has not been used since |
| SecondFactor.SecondFactorRequired | ross_ai/platform_server.py:1076-1121 | an enrolled account is signed in without GitHub only by a correct second factor for a challenge opened with its present password at most ten minutes before, used by nothing since, and used up now |
| SecondFactor.SecondFactorMeans | ross_ai/otp.py:52-149 | that second factor is the code of the previous, present or next step under the account's secret, or the latest code mailed for signing in, at most ten minutes old, unused and with fewer than five entries |
| SecondFactorRaces.WhoSignsInScattered | ross_ai/platform_server.py:871-1121 | under races each session still has one of the four credentials, in the store as its request read it |
| SecondFactorRaces.SecondFactorUnderRaces | ross_ai/auth.py:128-167 | under races a session by second factor still needs a challenge that a sign-in with the account's password opened at most ten minutes before, the password being the account's still, and a correct factor of that account as read |
| SecondFactorRaces.TwoSessions | ross_ai/auth.py:128-147 | two concurrent answers by authenticator that get two sessions out of one challenge, since reading and clearing it are apart |
| Accounts.PasswordDecides | ross_ai/auth.py:101-126 | under the law of the hash, in every run from the empty store, once the sign-up that made the account or its own choice gave it the password q, a sign-in for it with p plans a session or a challenge if and only if p == q |
| Accounts.PasswordOrigin | ross_ai/auth.py:64-309 | conversely, every stored password was given in one of those two ways |
| Accounts.PasswordDecidesUnderRaces | ross_ai/auth.py:101-126 | the same for every concurrent run and a sign-in that reads the account at any later time |
| Accounts.NewAccount | ross_ai/auth.py:64-99 | an account appears exactly by a valid sign-up or a good GitHub callback for its e-mail; by the first unverified and with that password alone, by the second verified and without a password; an operator with nothing else |
| Accounts.FirstDestination | ross_ai/platform_server.py:210-221 | a new account is sent to "/verify-email", one by GitHub to "/set-password" |
| Accounts.VerifiedOrigin | ross_ai/platform_server.py:938-964 | in every run from the empty store each verified account has an earlier request that vouches for it: a good GitHub callback for its e-mail, or its own entry of a code that the codes mailed so far make right |
| Accounts.VerifiedUnderRaces | ross_ai/platform_server.py:938-964 | in every concurrent run an account that is verified was marked so by such a request, judged by what it read |
| Accounts.VouchedByHistory | ross_ai/otp.py:111-149 | and the code it entered is one that the closures run up to its read make right: the latest mailed, at most ten minutes old, unused, with fewer than five entries |
| Accounts.MailedCodeDecides | ross_ai/otp.py:111-149 | with a digest that tells codes apart, the platform accepts a code exactly when it is the one last mailed for the account and purpose, at most ten minutes old, not entered since, with fewer than five entries since |
| Requests.FormsNeedToken | ross_ai/platform_server.py:938-1336 | no form does anything without a session in force whose token against forgery it carries |
| Requests.LogoutEnds | ross_ai/platform_server.py:1324-1336 | after a log-out that session is found at no time, every other as before, and the log says who left |
| Requests.MailedCodeWorks | ross_ai/platform_server.py:966-986 | a code mailed by a sign-up, a page or a request for another is right for ten minutes, for that account and purpose |
| Requests.OnlyTheseMail | ross_ai/platform_server.py:865-1336 | no other request mails a code, and the code kept is the one mailed |
| Requests.ElectionKept | ross_ai/platform_server.py:1123-1179 | an accepted election of a known tier is kept as typed, monthly without a cadence; any other changes nothing |
| Requests.PaymentKept | ross_ai/platform_server.py:1181-1242 | a payment in order leaves the membership at the tier's price, the last four digits of the card, and no election |
| Requests.PaymentCharged | ross_ai/billing.py:93-164 | and exactly one charge and one log entry, at that price and with those digits |
| Requests.PaymentRefused | ross_ai/platform_server.py:1181-1242 | any other payment changes nothing |
| Requests.AssignmentKept | ross_ai/platform_server.py:1244-1268 | an assignment gives the named account the named role exactly when the actor may, and changes no other account |
| Requests.SetupBegins | ross_ai/platform_server.py:491-514 | the page stores a new secret exactly after e-mail and password, for an account that has none |
| Requests.AuthenticatorEnrols | ross_ai/auth.py:192-214 | the code shown for the pending secret, or else the active one, at most one step away, enrols the account under it |
| Requests.AuthenticatorSignsIn | ross_ai/platform_server.py:1076-1121 | the code shown for the active secret, at most one step away, answers a challenge in force and signs in for twelve hours |
| Requests.SignUpLogged | ross_ai/auth.py:64-99 | a sign-up that makes an account logs it and its first code, and nothing else |
| Requests.SignInLogged | ross_ai/auth.py:101-126 | a sign-in with the right password logs either the sign-in or that a second factor is required |
| Requests.ChangeLogged | ross_ai/auth.py:169-358 | what other changes of an account leave in the log, a role assignment with the role before and after |
| Requests.ChallengesForget | ross_ai/auth.py:366-380 | a new challenge forgets exactly those that have expired |

## Left out

- Hashing, HMAC, PBKDF2, base32, deflate and UTF-8: parameters, or payloads kept as bytes; JSON is a classification of messages.
- Text: `strip`, `lower`, `isdigit` and `isalpha` are modelled on ASCII text only, and so are the digits kept of a card number.
- Sockets, headers, cookies, pages, redirects other than the onboarding stage, mail, the GitHub exchange and its state tokens: inputs of a request say how they turned out.
- The clock: one time per request, in `real` seconds; the source reads it several times. Histories of sessions and codes assume that it does not run backwards.
- RateLimiting.RateLimiter.Allow: stands alone; the handlers' own use of the limiters is not modelled.
- Stored fields that no rule reads: names, time stamps, sign-in providers, profile links, card brand, expiry and billing code.
- The development inbox of codes: whether it holds one is an input of the page that looks. The permission-decision log, script execution and its permissions are not modelled.
- Guarantees.GrantsAreJustified: requests one at a time; `Guarantees.JustifiedExact` says when it holds under races.
- SecondFactor.SecondFactorRequired: requests one at a time, and not about GitHub sign-ins, which create sessions directly; `SecondFactorRaces.SecondFactorUnderRaces` says what holds under races, where a challenge can be answered twice.
- Concurrency.ConcurrentIsRaced: the answer to a mailed code may come from any store read before, and not only from the request's own attempt, so that more interleavings are covered than can happen.
- Ledger.ShownIsCharged: compares amounts only; the page's text is not modelled.
- Runtime.RunsAreSafe: needs guards on start and restart_worker that the source does not enforce; `RuntimeGuards.GuardedRunsAreExact` shows that without them the promise of one task per worker is lost. Jobs need no guard (`Runtime.JobLedger`).
- Runtime.StopLeavesNothing: for runs that keep those guards; without them a stop leaves what was started after it began, as `RuntimeGuards.StartDuringStop` shows. What it waited for has ended in every run.
- RuntimeStore: its claim, deduplication and retry bookkeeping is not part of this model; claims and settlements are abstract events, and the scheduler's table of due jobs is left out.
- Store calls that raise inside `start`, `stop` or `restart_worker` are not modelled; in the worker, monitor and scheduler they are.
- The race in `asyncio.wait_for` of Python before 3.12 that can swallow a cancellation.
- The PNG reader knows filter type 0 only, the one that is written; logo drawing (`mix`, `setPixel`) is not modelled.
- `WebSocketHub`, `accept_key`, `parse_cookies`, policy pages, release tooling, browser scripts: easy members.
