# Verified models of openvpn-connect

openvpn-connect drives the OpenVPN 3 core from Rust. This project models the parts of it whose
correctness depends on the interplay of several pieces of code, and proves properties of those
models for all inputs, all runs and all reachable states. `dafny verify dfyconfig.toml` checks
everything.

* **The blocking client** (`ClientCore`, `ClientHistory`). One native object is shared by any number
  of threads and guarded by a lifecycle mutex and an atomic stop flag. Each atomic action of
  `client.rs` is one step; `stop` is split into the swap and the native call, and `connect` into the
  phases of native Core. A run is any interleaving; the history modules state what the cells hold on
  the actions of a run alone.
* **The Tokio layer** (`TokioSession`, `TokioInvariant`, `TokioSteps`, `TokioSafety`, `TokioRaces`,
  `TokioHistory`). Futures that may be dropped at any await, the setup mutex whose guard moves into blocking jobs,
  the `session_active` flag, and per session a worker, a driver task, a cancellation token, handles
  and the returned Session. Every step embeds a step of the blocking client, so the layer refines it.
* **The command channel** (`CommandActor`): callers, the bounded queue and the driver's `select!`; and
  its composition with a session (`SessionCommands`).
* **The external transport and TUN** (`ExternalTransport`, `ExternalTun`): calls posted or
  dispatched to Core's I/O thread, reparenting, and destruction inside a delivery.
* **The patch applier of the build script** (`PatchApplier`, `PatchPrinter`, `PatchReading`, `PatchText`,
  `PatchFiles`): the nested loops against a declarative splice; reading, completeness, inversion and the text level.
* **The TLS 1.0 PRF** (`Tls1Prf`): the `P_hash` loop over a mutable HMAC handle, section 5 of RFC 2246.
* **The TLS byte queues** (`TlsConnection`), **PEM** (`Pem`, `Base64`), **certificate splitting**
  (`Certificates`, `CertificateBundles`), **key-usage lists** (`KeyUsages`) and **big-endian numbers** (`BigEndian`).

`Text` and `Options` hold the library operations that these rely on.

Concurrent code is modelled as transition systems on values; loops and objects that a single thread
updates are methods and classes, proved against specification functions.

## What turned out not to hold

* *The blocking client can lose a stop.* A stop that takes effect after `prepare_connect` cleared the
  flag and before Core is reachable is absorbed (`ClientCore.BlockingStopCanBeLost`) and stays lost
  (`ClientCore.LostForever`). While Core is reachable, a stop is lost exactly when the flag is set and
  every swap that won it took effect before Core was reachable (`ClientCore.LostIffAllEarly`). In the
  Tokio layer no live reference issues an early stop (`TokioSafety.NoLostStop`).
* *A worker's own `prepare_connect` can refuse.* If a pending `connect` is dropped while it waits for
  the start signal, a second `connect` can pass `ensure_connectable` before the first session enters
  Connecting and claim `session_active` after the first session released it
  (`TokioRaces.SecondWorkerCanBeRefused`). A worker passes exactly when it is the client's first
  (`TokioRaces.WorkerPassesIffFirst`), and none is refused unless such a future is dropped
  (`TokioRaces.NoRefusalUnlessAbandoned`).
* *Hunks without old lines* (`-p,0`) insert before line `p` instead of after it; the result is the
  usual one exactly when every inserted line equals line `p` (`PatchPrinter.ZeroCountHunk`).
* *Files with `\r\n` are rewritten.* `str::lines` drops a carriage return before a newline, so reading
  a file and writing its lines back keeps it exactly if it has no `\r\n` (`PatchText.TextRoundTripIff`,
  `PatchText.CrLfRewritten`).
* *Reading a patched file back* gives the patched lines except when all lines were deleted from a
  file with a final newline, the last line is empty in a file without one, or a line before a newline
  ends in a carriage return (`PatchText.RereadIff`). A patch followed by its reverse restores the file
  exactly when none of these applies and the file has no `\r\n` (`PatchFiles.FileRestoredIff`);
  `PatchFiles.FileNotRestored` deletes and restores the only line of a file.
* *Close-notify before the end of the data* is reported exactly to reads without room
  (`TlsConnection.EarlyCloseIff`, `TlsConnection.EarlyCloseHappens`).
* *The plaintext counter* is wrong after a failed ciphertext write that decrypted something
  (`TlsConnection.FailedWriteHidesByte`). On every run it leaves out exactly what failed writes
  decrypted since the last success, so it is exact exactly when there was nothing of the kind or all
  is read, and no failed write saw the close (`TlsConnection.CounterExactIff`).
* *A serial padded with extra zeros* past nine bytes is reported as -1 even if it is small;
  `BigEndian.SerialRightIff` gives the exact condition.

## Model

| member | source | states |
|---|---|---|
| ClientCore.RunKeepsInv | openvpn-connect/src/client.rs:46-137 | every interleaving of evaluate, credentials, connect, stop, clone and drop keeps mutex ownership, lifecycle and native phase consistent, and balances won swaps against native stops |
| ClientCore.LifecycleForward | openvpn-connect/src/client.rs:241-287 | between any two points of any run the lifecycle only moves forward |
| ClientCore.SerializedNativeCalls | openvpn-connect/src/client.rs:46-137 | native connect is entered at most once, and native evaluate, credentials and connect never overlap |
| ClientCore.AtMostTwoNativeStops | openvpn-connect/src/client.rs:171-175 | native stop is entered at most twice over a client's life with any number of callers and the final drop, at most once before the flag is cleared |
| ClientCore.FreeIsLast | openvpn-connect/src/client.rs:272-280 | native free happens at most once, with no native call in progress, and no action is possible afterwards |
| ClientCore.UnreferencedIsFreed | openvpn-connect/src/client.rs:272-280 | once the last reference is gone the only possible continuation leads to the free in at most three steps |
| ClientCore.BlockingStopCanBeLost | openvpn-connect/src/client.rs:117-137 | a run in which a stop between `prepare_connect` and the end of Core's setup is absorbed while Core runs on |
| ClientCore.LostForever | openvpn-connect/src/client.rs:171-175 | once absorbed, no continuation and no later stop call reaches the session |
| ClientCore.HeardOnceReachable | openvpn-connect-sys/src/bridge.cpp:1103-1109 | unless a stop was lost by the end of setup, every requested stop is delivered, about to be delivered, or the session is over |
| ClientCore.LostIffAllEarly | openvpn-connect/src/client.rs:117-175 | in every run, while Core is reachable, a stop is lost if and only if the flag is set and every won swap took effect before Core was reachable |
| ClientHistory.CellsFollowActions | openvpn-connect/src/client.rs:46-137 | in every run, on its actions alone: the lifecycle is New if and only if no evaluation has succeeded and Finished if and only if the reset ran, the phase follows the native call, the flag is what the last swap or clearing left, and every counter counts its actions |
| ClientHistory.LetThroughIff | openvpn-connect/src/client.rs:46-137 | evaluation is let through if and only if no connect was prepared before, credentials and connect if and only if moreover an evaluation has succeeded; everything else returns at once |
| ClientHistory.ConnectNeedsEvaluation | openvpn-connect/src/client.rs:117-137 | native connect is entered only after a successful evaluation and after the flag was cleared |
| ClientHistory.ThreadsFollowActions | openvpn-connect/src/client.rs:46-175 | a thread stands where its last own action leaves it |
| ClientHistory.EveryCallCanReturn | openvpn-connect/src/client.rs:46-175 | a thread inside any call is back at rest after at most nine own steps, as long as no other thread holds the mutex |
| TokioSafety.RunKeepsInv | openvpn-connect/src/tokio.rs:259-329 | every interleaving of futures, jobs, workers, drivers, handles, tokens and drops keeps the layer's invariant |
| TokioSafety.RefinesCore | openvpn-connect/src/tokio.rs:259-329 | every run of the Tokio layer projects to a run of the blocking client |
| TokioSafety.TokioSerializesCore | openvpn-connect/src/tokio.rs:259-301 | with futures dropped anywhere: lifecycle forward, one native connect, no overlap, at most two native stops, nothing after the free |
| TokioSafety.StartsOnceBeforeAnyStop | openvpn-connect/src/tokio.rs:307-329 | the start signal fires at most once per session and exactly once when its worker has returned; before the first one no stop is requested or in flight |
| TokioSafety.NoLostStop | openvpn-connect/src/tokio.rs:307-329 | no live reference issues a native stop before Core is reachable; a requested stop is delivered, about to be delivered, or native connect is over |
| TokioSafety.CancellationRequestsStop | openvpn-connect/src/tokio.rs:615-621 | a driver that saw a cancellation, a Session dropped unresolved and every ended session have requested the stop; a selecting driver can always take a set token |
| TokioSafety.SessionResolvedMeansDone | openvpn-connect/src/tokio.rs:590-612 | a resolved Session means native connect returned, lifecycle Finished, `session_active` false, and a native stop issued or in flight |
| TokioRaces.CancelledIsDelivered | openvpn-connect/src/tokio.rs:661-699 | from every reachable state with a set token and Core running, steps of the driver and of threads inside stop alone lead to a delivered native stop |
| TokioRaces.WorkerPassesIffFirst | openvpn-connect/src/tokio.rs:296-329 | a worker's `prepare_connect` succeeds if and only if it is the client's first worker |
| TokioRaces.NoRefusalUnlessAbandoned | openvpn-connect/src/tokio.rs:296-329 | if no connect future is dropped while awaiting its start, every worker passes |
| TokioRaces.SecondWorkerCanBeRefused | openvpn-connect/src/tokio.rs:296-329 | the run in which a second worker is spawned and refused |
| TokioHistory.SessionFollowsSteps | openvpn-connect/src/tokio.rs:568-699 | in every run, on its steps: a token is set if and only if some step cancelled the session, a Session is returned, resolved, dropped and released exactly by the steps of that name, a worker is joined exactly after it returned, and a driver has left its loop, cleared the flag and exited exactly by its own steps |
| TokioHistory.LetThroughIff | openvpn-connect/src/tokio.rs:259-301 | a future that holds the setup guard starts its job or claims the session if and only if every session before has cleared the active flag; otherwise it is over and the guard is free |
| TokioHistory.CancelBegins | openvpn-connect/src/tokio.rs:458-461 | `cancel()` and the drop of an unresolved Session set the token and put the handle into its stop |
| TokioHistory.CancelRequestsStop | openvpn-connect/src/tokio.rs:615-621 | after either, in every continuation, the handle is still inside `cancel()` or the stop has been requested for good |
| TokioHistory.CancelDelivers | openvpn-connect/src/tokio.rs:458-461 | from there with Core running, steps of the handle and of threads already inside a stop reach a delivered native stop |
| CommandActor.ExecutedInAcceptanceOrder | openvpn-connect/src/tokio.rs:661-699 | whatever the select choices and the exit point, executed commands are a prefix of the accepted ones, each once, and the queue keeps to its capacity |
| CommandActor.AnswerIsTruthful | openvpn-connect/src/tokio.rs:554-561 | a reply means the command was executed, SessionClosed that it was not and never will be; a waiting caller can get its reply if and only if its command was executed, and SessionClosed if and only if the driver is gone without that |
| CommandActor.ClosedForGood | openvpn-connect/src/tokio.rs:679-698 | nothing is executed after the driver is gone |
| CommandActor.ChannelFollowsSteps | openvpn-connect/src/tokio.rs:554-561 | in every run, on its steps: which commands were accepted, executed and are queued, where the driver stands, and what each caller has learned |
| SessionCommands.StopAnswered | openvpn-connect/src/tokio.rs:451-456 | in every run of a session with its channel, `stop().await` returning Ok means the stop is requested and delivered, about to be delivered or moot; SessionClosed means the driver exited, native connect is over and a stop was requested too |
| SessionCommands.RunKeepsInv | openvpn-connect/src/tokio.rs:661-707 | in every run the driver stands at the same point in the session and in the channel, and an executed stop has set the flag for good |
| ExternalTransport.TransportConservation | openvpn-connect-sys/src/bridge.cpp:2190-2214 | in every run the accepted calls are the processed ones followed by the queued ones, in order; deliveries precede discards unless somebody reparents to null |
| ExternalTransport.Conservation | openvpn-connect-sys/src/bridge.cpp:2190-2214 | conservation from any conserved state, and both histories only grow |
| ExternalTransport.DeliversToParentAtRunTime | openvpn-connect-sys/src/bridge.cpp:2190-2214 | in every run the accepted calls are those posted while there was a parent, and the i-th closure run delivers the i-th of them to the parent left by the last reparenting or destruction before it, or discards it if there is none |
| ExternalTransport.NothingAfterDestroy | openvpn-connect-sys/src/bridge.cpp:524-532 | after destruction, also from inside a delivery, nothing is accepted or delivered |
| ExternalTun.TunConservation | openvpn-connect-sys/src/bridge.cpp:2231-2262 | other threads' calls are, in acceptance order, delivered, then discarded, then queued; no call is delivered twice and every inline call is delivered |
| ExternalTun.InlineAtOnce | openvpn-connect-sys/src/bridge.cpp:2240-2260 | after any run with the client attached, a call made on the I/O thread is accepted and delivered at once and keeps its place in every continuation |
| ExternalTun.InlineBeforeQueued | openvpn-connect-sys/src/bridge.cpp:2240-2260 | everything that was still queued is delivered after it |
| ExternalTun.FirstInlineDelivered | openvpn-connect-sys/src/bridge.cpp:2240-2260 | `connected()` reported inside start, before anything else, is delivered |
| ExternalTun.TunFollowsSteps | openvpn-connect-sys/src/bridge.cpp:2231-2262 | in every run, on its steps: the calls accepted are those made before the first destruction, an inline call is delivered at once, the n-th closure delivers the n-th posted call unless the client was destroyed, and what is queued and in progress is the rest |
| ExternalTun.NothingAfterDestroy | openvpn-connect-sys/src/bridge.cpp:871-879 | after destruction, at any nesting depth, nothing is accepted or delivered |
| PatchApplier.ApplyFilePatch | openvpn-connect-sys/build.rs:215-274 | the nested loops return the declarative outcome: the splice if the hunks parse, are ordered, do not overlap, lie in the source and match it, and a panic otherwise |
| PatchApplier.ApplyBody | openvpn-connect-sys/build.rs:250-271 | one hunk body consumes matching source lines and produces new lines as its edits say, or panics |
| PatchApplier.HunksMeaning | openvpn-connect-sys/build.rs:230-274 | processing hunks one by one succeeds if and only if they fit the source, and yields the splice |
| PatchApplier.EditsMeaning | openvpn-connect-sys/build.rs:293-308 | a body succeeds if and only if its old side stands at the cursor, and yields its new side |
| PatchReading.OutcomeIffScript | openvpn-connect-sys/build.rs:230-274 | a section succeeds on a source with some output if and only if these are the source and the target of an edit script with its hunks |
| PatchReading.HunksReadIff | openvpn-connect-sys/build.rs:230-271 | hunks are read if and only if the lines that count spell them; notes, lines outside hunks and what follows the end of a hunk do not count |
| PatchReading.HeaderWithCount | openvpn-connect-sys/build.rs:231-236 | a line `@@ -n,...` is a header with start n if n fits 64 bits and an error otherwise, whatever follows the comma |
| PatchReading.HeaderWithoutCount | openvpn-connect-sys/build.rs:283-291 | the same for `@@ -n ...` |
| PatchReading.HeaderWithoutMinus | openvpn-connect-sys/build.rs:283-291 | a header whose first word does not start with a minus sign is an error |
| PatchReading.LineKinds | openvpn-connect-sys/build.rs:250-271 | the marks of kept, deleted and added lines and the note, spelled out, and the panic on an empty line |
| PatchReading.OtherLines | openvpn-connect-sys/build.rs:250-271 | any other line ends the hunk, or panics if its first character has several bytes |
| PatchReading.DestinationIs | openvpn-connect-sys/build.rs:217-220 | the destination is what follows `+++ b/` on the first line that starts so, and there is none without such a line |
| PatchReading.CreatedFile | openvpn-connect-sys/build.rs:235-236 | a hunk that starts at line 0 creates a file with its added lines |
| PatchReading.SmallPatch | openvpn-connect-sys/build.rs:215-274 | a four-line section, spelled out, and its result |
| PatchPrinter.PrintedPatchApplies | openvpn-connect-sys/build.rs:230-274 | the patch printed from any line edit script turns its source into its target |
| PatchPrinter.StandardHeaderReadsBack | openvpn-connect-sys/build.rs:283-291 | the old start of every standard hunk header is read back |
| PatchPrinter.ReversedPatchRestores | openvpn-connect-sys/build.rs:230-274 | applying a printed patch and then the reversed, renumbered one restores the source |
| PatchPrinter.ZeroCountHunk | openvpn-connect-sys/build.rs:235-241 | a `-p,0` hunk inserts before line `p`; it agrees with inserting after it if and only if all inserted lines equal line `p` |
| PatchText.TextRoundTripIff | openvpn-connect-sys/build.rs:224-278 | reading a file and writing its lines back changes nothing if and only if it has no carriage return before a newline |
| PatchText.CrLfRewritten | openvpn-connect-sys/build.rs:224-278 | a file with such a line end that is written back differently |
| PatchText.RereadIff | openvpn-connect-sys/build.rs:274-278 | the written file reads back as the patched lines if and only if a line is left under a final newline, no empty line ends a file without one, and no line before a newline ends in a carriage return |
| PatchText.LinesDropCrs | openvpn-connect-sys/build.rs:216-225 | reading a text drops as many carriage returns as stand before newlines |
| PatchFiles.ApplyToFile | openvpn-connect-sys/build.rs:215-281 | from the texts of section and file to the text that is written, or a panic |
| PatchFiles.PatchedFile | openvpn-connect-sys/build.rs:215-281 | any text that reads as the printed section turns a file with the script's source lines into its target lines, final newline kept, plain newlines throughout |
| PatchFiles.FileRestoredIff | openvpn-connect-sys/build.rs:215-281 | a patch followed by its reverse restores the file byte for byte if and only if it has no carriage return before a newline and the patched file reads back as its lines |
| PatchFiles.FileNotRestored | openvpn-connect-sys/build.rs:215-281 | a one-line file whose deletion and restoration do not give it back |
| Tls1Prf.PHash | openvpn-connect-sys/src/rust_crypto.hpp:543-572 | the loop over the mutable handle fills the output with the RFC 2246 expansion: for every chain of HMAC values that starts with the seed, byte r of block i is byte r of the HMAC of the next chain value followed by the seed |
| Tls1Prf.Prf | openvpn-connect-sys/src/rust_crypto.hpp:512-540 | the output is the exclusive or of the MD5 and SHA-1 expansions over the overlapping halves |
| Tls1Prf.PrfMeans | openvpn-connect-sys/src/rust_crypto.hpp:512-540 | each output byte as the exclusive or of a byte of a 16-byte MD5 block over the first half and a byte of a 20-byte SHA-1 block over the second, without the expansion |
| Tls1Prf.Halves | openvpn-connect-sys/src/rust_crypto.hpp:519-532 | the halves have equal length and cover the secret, sharing the middle byte when the length is odd |
| Tls1Prf.ExpansionBytes | openvpn-connect-sys/src/rust_crypto.hpp:543-572 | blocks laid end to end are the bytes of the unbounded expansion |
| Tls1Prf.ExpansionPrefix | openvpn-connect-sys/src/rust_crypto.hpp:543-572 | shorter expansions are prefixes of longer ones |
| Tls1Prf.HmacHandle.Final | openvpn-connect-sys/src/rust_backend/crypto.rs:162-172 | writes the whole HMAC of key and accumulated data, or nothing if it does not fit |
| TlsConnection.Connection.ReadCiphertextBytes | openvpn-connect-sys/src/rust_backend/tls.rs:649-676 | pulls from rustls when the queue is empty, then moves what fits from the front of the queue to the output; every error path |
| TlsConnection.Connection.PopInto | openvpn-connect-sys/src/rust_backend/tls.rs:667-674 | the pop loop moves exactly the first bytes of the queue, in order |
| TlsConnection.Connection.ReadPlaintextBytes | openvpn-connect-sys/src/rust_backend/tls.rs:595-617 | reads what fits, adjusts the counter, and reports bytes, would block, close-notify or an error |
| TlsConnection.CiphertextConserved | openvpn-connect-sys/src/rust_backend/tls.rs:649-676 | over every sequence of calls, bytes returned followed by the queue equal the bytes rustls handed over, and with its outgoing buffer all it produced |
| TlsConnection.PlaintextConserved | openvpn-connect-sys/src/rust_backend/tls.rs:595-617 | bytes delivered followed by the unread ones equal all bytes decrypted |
| TlsConnection.ReadyReadReturns | openvpn-connect-sys/src/rust_backend/tls.rs:678-683 | readiness holds if and only if a read with room returns bytes, and that read shrinks what is pending by them |
| TlsConnection.ReadsDrain | openvpn-connect-sys/src/rust_backend/tls.rs:649-683 | as many reads as there are pending bytes return all of them in order and clear readiness |
| TlsConnection.ReadFills | openvpn-connect-sys/src/rust_backend/tls.rs:649-676 | a read fails exactly for a missing buffer or a failing rustls, stops only at a full output or an empty queue, and asks rustls only when the queue was empty |
| TlsConnection.PlainReadFills | openvpn-connect-sys/src/rust_backend/tls.rs:595-617 | a plaintext read stops only at a full output or when nothing is unread, and what it returns in every case, exact counter or not |
| TlsConnection.CounterExact | openvpn-connect-sys/src/rust_backend/tls.rs:595-647 | on every run the counter never exceeds the unread bytes, and equals them unless the last ciphertext write failed |
| TlsConnection.NeverSaturates | openvpn-connect-sys/src/rust_backend/tls.rs:606-609 | on runs whose last write succeeded the saturating subtraction does not saturate |
| TlsConnection.CounterExactIff | openvpn-connect-sys/src/rust_backend/tls.rs:595-647 | on every run, failures included, the counter is the unread bytes less those that failed writes decrypted since the last success; exact if and only if there are none or all is read, and no failed write saw the close |
| TlsConnection.FailedWriteExactIff | openvpn-connect-sys/src/rust_backend/tls.rs:626-647 | a failed write keeps the counter exact if and only if it decrypted nothing and saw no close |
| TlsConnection.FailedWriteHidesByte | openvpn-connect-sys/src/rust_backend/tls.rs:626-647 | a failed write after which a readable byte is not announced |
| TlsConnection.ReadOutcome | openvpn-connect-sys/src/rust_tls.hpp:595-616 | what `read_cleartext` reports in every case, and that readiness means it is not a retry |
| TlsConnection.EarlyCloseIff | openvpn-connect-sys/src/rust_backend/tls.rs:604-606 | with unread bytes, close-notify is reported if and only if the read has no room and the peer closed |
| TlsConnection.EarlyCloseHappens | openvpn-connect-sys/src/rust_backend/tls.rs:604-606 | a run and a read without room that reports close-notify with a byte unread |
| TlsConnection.CloseIsTheEnd | openvpn-connect-sys/src/rust_backend/tls.rs:1208-1230 | close-notify to a read with room comes after every decrypted byte was delivered; nothing follows, and it is reported again ever after |
| Base64.DecodeEncode | openvpn-connect-sys/src/rust_tls.hpp:1009-1010 | decoding undoes encoding in the Base64 of section 4 of RFC 4648 |
| Base64.StandardIsSound | openvpn-connect-sys/src/rust_tls.hpp:1009-1010 | the standard codec meets what the PEM functions rely on |
| Base64.TestVectors | openvpn-connect-sys/src/rust_tls.hpp:1009-1010 | the encodings of three test vectors of section 10 of RFC 4648 |
| Pem.PemEncode | openvpn-connect-sys/src/rust_tls.hpp:1002-1024 | succeeds if and only if the wrapped text fits the destination, and then appends all of it |
| Pem.PemDecodeInto | openvpn-connect-sys/src/rust_tls.hpp:1026-1066 | succeeds if and only if both markers are found, the body decodes and the bytes fit, and then appends them |
| Pem.WrapText | openvpn-connect-sys/src/rust_tls.hpp:1009-1014 | the loop writes the markers around the encoded text in lines of 64 |
| Pem.ChunksShape | openvpn-connect-sys/src/rust_tls.hpp:1012-1013 | every body line has 64 characters, the last between 1 and 64, and together they spell the encoded text |
| Pem.WrappedLines | openvpn-connect-sys/src/rust_tls.hpp:1011-1014 | the lines of the whole text are the begin marker, the body lines and the end marker |
| Pem.DecodeReadsBody | openvpn-connect-sys/src/rust_tls.hpp:1026-1060 | decoding depends only on the non-blank characters between the markers |
| Pem.PemDecodesIff | openvpn-connect-sys/src/rust_tls.hpp:1026-1060 | decoding succeeds if and only if the first begin marker and the first end marker after it enclose a body whose non-blank characters decode |
| Pem.StripMeans | openvpn-connect-sys/src/rust_tls.hpp:1046-1055 | carriage returns, newlines, spaces and tabs are dropped wherever they stand and nothing else is |
| Pem.SharedDashes | openvpn-connect-sys/src/rust_tls.hpp:1036-1042 | markers that share their dashes enclose nothing |
| Pem.PemRoundTrip | openvpn-connect-sys/src/rust_tls.hpp:1002-1066 | decoding an encoded text returns the bytes, for all bytes and every key name |
| Certificates.SplitCertificates | openvpn-connect-sys/src/rust_tls.hpp:52-71 | the loop terminates and returns the blocks of the text |
| Certificates.BlocksAreBlocks | openvpn-connect-sys/src/rust_tls.hpp:60-69 | every returned string runs from a begin marker to the first end marker and ends in a newline, overlapping and nested markers included |
| Certificates.BundleSplits | openvpn-connect-sys/src/rust_tls.hpp:52-71 | blocks in a text with any gaps that have no dashes come back exactly, in order |
| Certificates.SplitConcat | openvpn-connect-sys/src/rust_tls.hpp:52-71 | splitting undoes concatenation for every list of blocks |
| Certificates.SplitStable | openvpn-connect-sys/src/rust_tls.hpp:52-71 | for every text, splitting the concatenation of its blocks gives the same blocks |
| CertificateBundles.BundleRoundTrip | openvpn-connect-sys/src/rust_tls.hpp:52-71 | certificates printed as PEM and concatenated split into the texts they came from, and each text decodes to its certificate |
| KeyUsages.JoinKeyUsages | openvpn-connect-sys/src/rust_tls.hpp:73-83 | the loop prints the decimal values separated by commas |
| KeyUsages.ParseInvertsJoin | openvpn-connect-sys/src/rust_backend/tls.rs:931-942 | parsing a printed list returns it, for every list of 32-bit values and the empty list |
| KeyUsages.ParseFailsIff | openvpn-connect-sys/src/rust_backend/tls.rs:931-942 | parsing fails if and only if some item is neither blank nor a 32-bit number |
| KeyUsages.ParsesIffFits | openvpn-connect-sys/src/rust_backend/tls.rs:931-942 | a single number is accepted if and only if it fits 32 bits |
| KeyUsages.BlanksIgnored | openvpn-connect-sys/src/rust_backend/tls.rs:933-935 | blanks around items, and blank items, do not matter |
| BigEndian.SignificantBitsIsBitLength | openvpn-connect-sys/src/rust_backend/tls.rs:1073-1083 | `significant_bits` is the bit length of the big-endian number, leading zeros or not |
| BigEndian.BitLengthBounds | openvpn-connect-sys/src/rust_backend/tls.rs:1073-1083 | a positive number of bit length n lies in [2^(n-1), 2^n) |
| BigEndian.ValueConcat | openvpn-connect-sys/src/rust_backend/tls.rs:1105-1114 | the number of a concatenation: earlier bytes weigh 256 times as much for each byte after them |
| BigEndian.SerialI64 | openvpn-connect-sys/src/rust_backend/tls.rs:1105-1114 | the value if one stripped zero leaves at most eight bytes and it fits, -1 otherwise |
| BigEndian.PaddedSerialLost | openvpn-connect-sys/src/rust_backend/tls.rs:1105-1109 | a padded serial of value 1 that is decoded as -1 |
| BigEndian.SerialRightIff | openvpn-connect-sys/src/rust_backend/tls.rs:1105-1114 | the decoded serial is right if and only if it is at most eight bytes after one stripped zero or needs 64 bits or more, and -1 where it is not right; always right for minimally encoded serials |

## Left out

- OpenVPN Core, Asio, rustls, webpki, x509-parser, RustCrypto and Hickory: only the behaviour the code relies on appears, as parameters (a FIFO I/O queue, reader and writer behaviour, HMAC of fixed length, any sound Base64 codec).
- rustls: data after close-notify is ignored, `write_tls` into a vector takes a non-empty prefix or fails, and a failed `process_new_packets` may still have decrypted bytes.
- Memory ordering: the atomics are modelled as sequentially consistent, and locks as never poisoned.
- Runtime shutdown, panics in callbacks, spawn failures, fairness and liveness under a scheduler.
- The concurrent protocols (client, Tokio layer, command channel, external transport and TUN) are transition systems on values and not classes, because their meaning is in the interleaving and not in one thread's updates.
- The contents of commands and replies, evaluation results, event broadcasts and callbacks: they do not influence the protocols. `callback_self_test` is not modelled in the Tokio layer; in the blocking client it is one more native call outside the lifecycle mutex.
- The handle that a Session holds is created when `connect` returns, not when the driver is spawned.
- Null and foreign FFI handles, marshalling of structures and configuration fields, error texts.
- The transport and TUN query functions and the headroom of received TUN packets.
- Splitting a patch into sections at `diff --git ` and file input and output. The applier works on one section and one file.
- The nested loops of the patch applier are two methods, one per loop, and a round of certificate splitting has its two searches in a method of its own; neither changes the order of effects.
- PatchPrinter.PrintedPatchApplies: sources of 2^64 lines and more, whose positions a header cannot hold.
- PatchPrinter.ReversedPatchRestores: the same for targets.
- PatchFiles.PatchedFile: the same, through `Spells`.
- TokioSafety.NoLostStop: the native stop of the final drop, which on a client that never connected comes before Core is reachable.
- TlsConnection.CloseIsTheEnd: read capacities beyond isize::MAX, which no Rust slice has.
- TlsConnection.ReadOutcome: the same.
- Cipher suites, groups and provider configuration, certificate and signature policy, DNS, packaging and platform selection.
