# Verification model of the attestation service

The service attests a machine in three ways: it measures a folder into a TPM PCR and quotes that PCR
(`/information_tpm`, `/quote_tpm`), combines the quote with a TDX report for the same challenge
(`/attestation_all`) and checks such a combination (`/verify_all`), and it parses the report of a GPU
attestation tool. It keeps an audit log and, in debug builds, a timing record of every request. This
project models the parts of it that carry its promises, and proves them.

`dafny verify dfyconfig.toml` checks everything.

## How the model is laid out

| module | what it is |
|---|---|
| `Wrappers`, `Text`, `Decimal`, `Order` | results, the `str` operations used, decimal printing, lexicographic orders and the stable sort |
| `Codec`, `Nonce` | hexadecimal, Base64, UTF-8, the evidence blobs; validation of challenges |
| `Tdx`, `Tpm` | the TDX module and the TPM (TPM 2.0 Library, Part 3) behind their devices, as ideal functions |
| `Service` | the transactions of the service as an interleaving state machine over any number of requests |
| `Safety`, `Guarantees` | its inductive invariant and the promises read off it |
| `Refusals`, `Faults` | whom it blames, and which failure refuses a request with which error |
| `BestEffort`, `WarmPath`, `Leftovers` | the optional key, the cached key, and the scratch directories over whole runs |
| `Progress`, `Release` | that transactions end and the lock is given back |
| `Schedules`, `Trials`, `Recovery` | that requests with enough turns are answered under every schedule, from every reachable state |
| `EndToEnd` | what answers tell their reader: the folder behind a PCR value, the challenges behind two halves |
| `Folder`, `Resolution`, `WalkTheorems` | the recursive walk over a file system with symlinks, what a path leads to, and what is collected |
| `Layout`, `Formats` | every encoding and format, character by character against literals |
| `Measurement`, `DigestTheorems` | the folder measurement, its digest stream, and what equal digests mean |
| `Calendar`, `Timestamp` | `civil_from_days` (three copies, one function) and the three timestamp formats |
| `AuditLog` | quoting, event lines, and a reader of the log |
| `Gpu`, `GpuTheorems`, `GpuPrinter` | the report parser, its block-wise meaning, and the printer it undoes |
| `Metrics`, `Json`, `Render` | buckets, spans and recorder; JSON; the rendered record and its checks |
| `Stages`, `StageRuns`, `HonestRecord` | how stages share out a request's time, runs of the handlers, and what `checksum_ok` makes of one |

**The state machine.** A request arrives at any time and takes steps in any order with all others.
Every step may fail or panic; a failing command may or may not have taken effect; the measured folder
may change at any moment; the TPM, its persistent keys and the temporary directory start out arbitrary.
The mutex, its poisoning and recovery, the cached public key, the scratch counter and the scratch
directories are parts of the state. `/verify_all` runs without the lock. Nobody else uses the TPM.
Cryptography is a record of functions (`Tpm.Platform`); `Tpm.Ideal` says what is expected of them: digests
of 32 bytes, quotes that check against the key that signed them, a TDX module that accepts its own reports.
Nothing is assumed of other signatures, and no hash is assumed to be injective: where digests are
compared, the hypothesis is that it does not collide on the data at hand (`Measurement.NoCollision`).

**The file system** is a finite map from paths to nodes; symlinks resolve component by component with the
system's limit on how many are followed, so cyclic links are included. Directory listings come in any order.

**Form.** What the program does step by step in place is imperative here too: the walk pushes to a shared
list, the hashing loop, the array behind REPORTDATA, buckets, spans, recorder, the log, the parser's loop,
and the pushes that build log lines and JSON. Each such method is proved against a function or a ghost
history, and the promises are proved about that. The transactions are a state machine, because what
matters there is how steps of different requests interleave.

## Where code and documentation differ

- The timing record's `stages` are documented as mutually exclusive. On `/verify_all` they are so exactly
  when one of the six things before its scratch directory fails (`StageRuns.VerifyAllExclusiveExactly`):
  otherwise the directory is dropped inside `tpm_verify_us` and counted again (`StageRuns.VerifyAllOverlaps`,
  bounded by `Stages.OnlyTheDropCountsTwice`).
- `units` are documented as parts of a stage; `checksum_ok` adds up all of them, and so counts the folder
  time twice (`Render.ChecksumIsTheTotal` says what it comes to for every record,
  `HonestRecord.FolderTimeCountsTwice` for every run of `/information_tpm`, and
  `HonestRecord.HonestRecordFails` shows a run that fails it).
- `successful` of a GPU report is documented as the line `GPU attestation was successful`; it is a substring
  test, true also of reports that end in "GPU attestation was unsuccessful" or "GPU attestation was not
  successful" (`GpuTheorems.FailureIsFlaggedSuccessful`). It is wrong exactly when the word occurs in another
  last line (`GpuTheorems.FlagIsWrongExactly`).
- A GPU report without a summary gets the line `Devices:` as its summary (`GpuPrinter.PrintedReportParses`).
- `total_hash` is documented to bind every relative path. It binds a set of paths exactly when their
  displayed names are all different (`DigestTheorems.BindsExactlyTellingNames`), which holds for plain names,
  valid text without backslashes (`DigestTheorems.PlainDigestsTell`); but backslashes are displayed as
  slashes, so two different folders can have one `total_hash`, whatever the hash
  (`DigestTheorems.BackslashHidesThePath`).
- The audit log is documented as one line per event (src/logging.rs:20). An event is one line exactly when
  none of its values contains a line feed (`AuditLog.OneEventOneLine`, `AuditLog.OneEventTwoLines`); the
  reader in `AuditLog` therefore follows quotation marks, not lines.
- `trusted` says that both halves verify, not that they are about one challenge
  (`EndToEnd.TrustedHalvesMayDiffer`; `EndToEnd.MixedHalves` says which check of a caller tells).
- `verify_all` is documented (src/tpm.rs:1409-1411) to answer `trusted=false` for a missing `tdx` field or a
  malformed blob; the code, as its own list of errors says, refuses these with `InvalidInput`
  (`Refusals.AnsweredIsWellFormed`: no malformed request is ever answered; `Refusals.BlameIsFair`).
- REPORTDATA is documented as the challenge padded with zeros; it tells challenges apart only up to the
  zeros at their ends (`Tdx.PaddingBindsExactly`).

## Model

| member | source | states |
|---|---|---|
| `Nonce.AcceptedExactly` | src/tpm.rs:746-776 | a challenge is accepted if and only if, trimmed, it is hexadecimal of 1 to 64 bytes; every refusal is `InvalidInput`; the answer is the same bytes in lower case, and their number |
| `Nonce.CanonicalIsFixed` | src/tpm.rs:1060 | the repeated validation inside `create_quote` neither fails nor changes a canonical challenge |
| `Nonce.NormalizeIdempotent` | src/tpm.rs:1213 | validating an already validated challenge again (handler, then backend) gives the same result |
| `Nonce.NormalizeIgnoresCase` | src/tpm.rs:374-393 | texts that agree up to case and surrounding white space are the same challenge, or both are refused |
| `Nonce.AliasesAgree` | src/tpm.rs:374-393 | a request is refused exactly when both fields are absent, they differ, or one of them is unusable; otherwise reading `nonce` or `challenge` gives the one canonical challenge |
| `Codec.FromHexOfToHex` | src/tpm.rs:1091 | hexadecimal encoding is undone by decoding, for every byte string |
| `Codec.ToHexOfFromHex` | src/tpm.rs:1544-1545 | decoding accepts both cases and re-encoding gives the text in lower case |
| `Codec.Base64RoundTrip` | src/tpm.rs:1091-1092 | Base64 with padding (RFC 4648, section 4) is undone by the strict decoder, for every byte string |
| `Codec.Base64Canonical` | src/tpm.rs:1539-1541 | the strict decoder accepts only canonical texts: no two texts decode to the same bytes |
| `Codec.AsciiIsUtf8` | src/tpm.rs:1542-1543 | the hexadecimal text between the two encodings passes the UTF-8 check unchanged |
| `Codec.BlobRoundTrip` | src/tpm.rs:1538-1546 | `decode_blob` inverts `base64(hex(bytes))` for every byte string, and neither of its trims removes anything |
| `Codec.QuoteSplits` | src/tpm.rs:1058 | splitting `signature:message:pcrs` at its colons gives the three blobs back |
| `Layout.HexTextIs` | src/tpm.rs:746-776 | a text is hexadecimal if and only if all its characters are among `0123456789abcdefABCDEF` |
| `Layout.HexLayout` | src/tpm.rs:1091 | against the literal digits: byte i is shown as its high and then its low half in lower case |
| `Layout.Base64Layout` | src/tpm.rs:1091 | against the literal alphabet of RFC 4648: character j of group g is the entry at the j-th six bits of the 24-bit number of the group, zero bits and `=` behind a short group |
| `Layout.Utf8Exactly` | src/tpm.rs:1542-1543 | exactly the encodings of RFC 3629 are read, each as the text it encodes |
| `Layout.BlobsExactly` | src/tpm.rs:1538-1546 | `decode_blob` accepts exactly the Base64 of the UTF-8 of hexadecimal in any case, white space around either text allowed, and gives its bytes; everything else is `InvalidInput` |
| `Layout.UsableExactly` | src/tpm.rs:746-776 | usable challenges against literals: unframed, 2 to 128 hexadecimal digits, an even number |
| `Layout.LowerExactly` | src/tpm.rs:374-393 | lower case changes the 26 capitals into their letters and nothing else |
| `Tdx.ReportRequest.SetReportData` | src/attestation.rs:197-208 | in place: the 64-byte buffer becomes the challenge followed by zeros; a longer challenge is refused and leaves the buffer as it was |
| `Tdx.ReportRequest.Issue` | src/attestation.rs:239-249 | the ioctl fills the report buffer from the request buffer and leaves the latter unchanged |
| `Tdx.GenerateTdxReport` | src/attestation.rs:226-255 | refusal of long challenges, missing device, failing call, or a full report whose REPORTDATA is the zero-padded challenge |
| `Tdx.PaddingBindsExactly` | src/attestation.rs:197-218 | the zero-padded REPORTDATA binds a challenge exactly up to the zeros at its end: two challenges that fit have the same REPORTDATA if and only if they are equal once their trailing zeros are dropped |
| `Tpm.PerformKeepsKeys` | src/tpm.rs:929-987 | no command replaces or removes a persistent key; only the eviction command adds one, at its handle, and only when that handle is empty |
| `Safety.IssueFrame` | src/tpm.rs:783-813 | whether a failing command took effect or not: keys are kept, and only start-up, reset and extension touch the PCR |
| `Safety.CommandKeeps` | src/tpm.rs:1096-1131 | after any command with any fate a transaction is either on its way out without a reply or satisfies its invariant in the next phase |
| `Safety.EvidenceOfFiles` | src/tpm.rs:1048-1077 | the blobs read from the scratch directory become exactly the evidence of a quote over the PCR and the challenge; re-validation cannot fail here |
| `Safety.ReportOfNonce` | src/tpm.rs:1353-1372 | the canonical challenge always decodes and fits, so the TDX half fails only when the device does, and otherwise is the report of the padded challenge |
| `Safety.CheckKeeps` | src/tpm.rs:1492-1535 | the verdict is about the posted signature, message and key, whatever other requests did between writing and checking the files |
| `Safety.LocalKeeps` | src/tpm.rs:1304-1397 | one step of one request, with any outcome, keeps its invariant, the cache invariant and all keys |
| `Safety.OutsideUnaffected` | src/tpm.rs:1418-1451 | what the lock holder does to TPM and cache does not disturb requests outside the lock |
| `Safety.OthersKeep` | src/tpm.rs:728-733 | a turn of one request keeps the invariant of all others |
| `Safety.LockTurnKeeps` | src/tpm.rs:728-733 | taking the lock, also a poisoned one, keeps the invariant of the whole service |
| `Safety.ScratchTurnKeeps` | src/tpm.rs:1559-1570 | making a scratch directory, or failing to, keeps directories apart |
| `Safety.DropTurnKeeps` | src/tpm.rs:1586-1595 | dropping a scratch directory, also when the removal fails, keeps the invariant |
| `Safety.NextKeeps` | src/tpm.rs:1150-1451 | every action - an arrival, or any step of any request with any outcome - keeps the invariant and every persistent key |
| `Guarantees.RunKeeps` | src/tpm.rs:1150-1451 | the invariant holds along every run |
| `Guarantees.ReachableOk` | src/tpm.rs:1150-1451 | the invariant holds in every reachable state: any number of requests, any interleaving, any failures and panics |
| `Guarantees.AnswersAreHonest` | src/tpm.rs:1096-1131 | every answer of a measuring request: the digest of what this request met while measuring (on an undisturbed folder, that of `measure_folder`), the PCR value H(zeros ‖ digest), a quote by the persisted key over exactly that value and its own challenge, whatever earlier requests left in the PCR; every verdict is the one on the posted attestation |
| `Guarantees.VerdictsAreExact` | src/tpm.rs:1418-1451 | the three flags of every answered verification: `tpm_trusted` if and only if the check of the posted quote says so, `tdx_trusted` if and only if the module accepts the posted report, `trusted` if and only if both; a rejected half is never answered trusted |
| `Guarantees.TransactionsExclude` | src/tpm.rs:686-733 | at most one request is between lock and unlock, and it holds the lock |
| `Guarantees.DirectoriesAreApart` | src/tpm.rs:1552-1570 | scratch directories in use are pairwise distinct, also those of verifications that run without the lock |
| `Guarantees.KeysAreForever` | src/tpm.rs:925-987 | a persistent key survives every continuation of every run |
| `Guarantees.KeysAreMadeOnce` | src/tpm.rs:929-987 | a key is created only by the persisting step, only at the configured handle, and only when that handle is empty |
| `Guarantees.CacheIsCurrent` | src/tpm.rs:990-1017 | a cached public key is the public part of the key at the handle |
| `Guarantees.AttestationCost` | src/tpm.rs:1304-1397 | a completed quote or attestation ran 7, 9, 14 or 16 commands; exactly 7 if and only if it made no key and missed no cache, in particular whenever both were there at lock time |
| `Guarantees.HalvesShareTheChallenge` | src/tpm.rs:1353-1372 | in a combined attestation both halves carry the same canonical challenge, and REPORTDATA is that challenge padded to 64 bytes |
| `Guarantees.HonestQuoteChecks` | src/tpm.rs:1461-1535 | an honest quote decodes and passes the check of signature and challenge |
| `Guarantees.HonestIsAccepted` | src/tpm.rs:1418-1451 | an honest attestation with a public key gets all three flags |
| `Guarantees.AttestationVerifies` | src/tpm.rs:1304-1451 | whenever an attestation with a public key was answered, any answered verification of it, by any service on the platform, says trusted, three times (that it is answered is `Recovery.AttestationIsTrusted`) |
| `Progress.LocalAdvances` | src/tpm.rs:1304-1397 | inside a transaction every step that meets no failure of its own brings the request closer to its reply |
| `Progress.LeftAloneIsAnswered` | src/tpm.rs:1150-1397 | a request on course, the lock being free or its own, that is left alone is answered within a bounded number of steps |
| `Schedules.OthersLeaveTheView` | src/tpm.rs:728-733 | what any other request does, however it fails, leaves the variables of a request and, while that has the lock, its TPM, cache and files as they are |
| `Schedules.EnoughTurnsAnswer` | src/tpm.rs:1150-1397 | under every schedule: a measuring request on course is answered with a public key in every continuation that gives it as many turns as its distance to the reply, not counting turns spent waiting for a lock that another one holds, if nothing goes wrong at these turns, whatever others do in between |
| `Release.HolderReleases` | src/tpm.rs:720-733 | in every continuation in which the holder of the lock gets as many turns as its distance to the end (at most 29), it gives the lock back on the way, whatever its steps come to, panics included, and whatever others do in between |
| `Release.LockCanBeFreed` | src/tpm.rs:720-733 | from every state of the invariant, turns of the holder alone lead to a free lock, within 29 turns |
| `Trials.TrialEnds` | src/tpm.rs:1418-1535 | under every schedule, whoever holds the lock: a verification is answered in every continuation that gives it as many turns as it has steps left, if nothing goes wrong at these |
| `Recovery.ServiceRecovers` | src/tpm.rs:720-733 | nothing can block the service for good: from every reachable state - lock free, held or poisoned, any earlier failures, panics and leftovers - there is a continuation of at most 70 steps (turns of the holder, then of the new request) in which a new measuring request is answered, honestly and with a public key |
| `Recovery.EveryScheduleAnswers` | src/tpm.rs:720-733 | from every reachable state, a new measuring request with a usable challenge is answered, honestly and with a public key, in every continuation that gives it forty turns at which nothing goes wrong and it does not wait for the lock of another, whatever others do in between |
| `Recovery.VerdictIsGiven` | src/tpm.rs:1418-1451 | from every reachable state, also while others hold the lock, a posted attestation that has a verdict is answered with it in every continuation that gives the verification ten turns at which nothing goes wrong |
| `Recovery.AttestationIsTrusted` | src/tpm.rs:1304-1451 | completeness of the pair: an attestation with a public key that was answered, posted to a service in any reachable state, is answered trusted, three times, in every such continuation |
| `BestEffort.AnsweredExactly` | src/tpm.rs:1150-1197 | a measuring request that did not panic is answered if and only if it got what its reply cannot do without: the PCR value, the quote, the report; afterwards it is never refused |
| `BestEffort.AnsweredAnyway` | src/tpm.rs:1173-1181 | from every reachable state, a request that has that is answered in every continuation that gives it 22 turns without a panic, whatever becomes of the commands and files that deal with the key; without a key if and only if one of these fails |
| `BestEffort.KeyIsOptional` | src/tpm.rs:1259-1270 | the same from any phase in which only the key is missing, on all three routes: `/information_tpm` from the capability query on, the others from the cache on |
| `WarmPath.AnswerFillsTheCache` | src/tpm.rs:990-1017 | in every reachable state: once any request was answered with a key, the cache holds the public part of the persisted key |
| `WarmPath.LaterOnesAreWarm` | src/tpm.rs:990-1017 | from then on every quote and attestation that gets the lock later and is answered ran exactly seven commands, whatever happens in between |
| `Leftovers.NothingIsLeft` | src/tpm.rs:1586-1595 | in every run from an empty temporary directory in which removals succeed, the scratch directories that are there are those in use, whatever failed or panicked; none is left when all requests are finished |
| `Leftovers.NumbersAreUsedOnce` | src/tpm.rs:1552-1570 | no directory number is handed out twice in any continuation, also when making the directory failed |
| `Leftovers.PanicPoisons` | src/tpm.rs:720-733 | a panic under the lock poisons it in every continuation (which `Recovery.ServiceRecovers` shows to be harmless) |
| `EndToEnd.PcrTellsTheFolder` | src/tpm.rs:1096-1147 | end to end: two answers over undisturbed folders with plain names show the same PCR value if and only if the folders hold the same relative paths with the same contents, unless the hash collides on what these two requests hashed |
| `EndToEnd.MixedHalves` | src/tpm.rs:1418-1451 | halves of two honest attestations, put together, are trusted whatever their challenges; they agree on REPORTDATA - which a caller can check before posting - if and only if the challenges are equal up to trailing zeros, and name one challenge if and only if the challenges are equal |
| `EndToEnd.TrustedHalvesMayDiffer` | src/tpm.rs:1418-1451 | so `trusted` does not say that the halves share a challenge: on every platform and from every reachable state, any two challenges that differ before their trailing zeros lead to a run whose verification answers trusted, three times, to halves that disagree |
| `Refusals.AnsweredIsWellFormed` | src/tpm.rs:1418-1451 | no malformed request - unusable challenge, missing or malformed report, undecodable blob - is ever answered |
| `Refusals.BlameIsFair` | src/tpm.rs:237-259 | `InvalidInput` is told only to callers of malformed requests, and a challenge request is refused with it if and only if its challenge is unusable, however many failures there are around it |
| `Faults.RefusedExactly` | src/tpm.rs:1304-1397 | for every step inside a directory, in every situation of the invariant: whether it refuses the request and with which of the three errors; flushing, a running TPM and an optional key refuse nothing |
| `Faults.EnteredExactly` | src/tpm.rs:1208-1216 | the first turn of a request: it waits for the lock or has its report judged, or it is told its fault |
| `Faults.ReportJudgedExactly` | src/attestation.rs:320-344 | what becomes of a posted report: not hexadecimal or not 1024 bytes is `InvalidInput`, whatever the device; then a missing device, a failing one, or the flag the module gives |
| `Faults.OutOfReachOnly` | src/tpm.rs:237-259 | `NotImplemented` is told only when a backend was out of reach: never in a continuation in which all turns of the request reach TPM and TDX device, however they fail |
| `Faults.MalformedIsRefused` | src/tpm.rs:1418-1426 | a malformed request is refused with `InvalidInput` in every continuation that gives it ten turns at which nothing else goes wrong |
| `Order.SortPermutes` | src/tpm.rs:632 | sorting keeps every path as often as it was there |
| `Order.SortIncreases` | src/tpm.rs:564 | the stable sort of a list increasing by a second order is the one increasing list by name, then by that order |
| `Order.IncreasingIsUnique` | src/tpm.rs:632 | an increasing list is determined by its elements |
| `Folder.OrdersAreTotal` | src/tpm.rs:632 | the component-wise order of paths is a strict total order |
| `Folder.PathsAscend` | src/tpm.rs:632 | paths are ordered component by component by their raw bytes as integers, ascending, a proper prefix first: an if and only if |
| `Folder.ResolvedIsReal` | src/tpm.rs:644-661 | a canonicalised path passes through directories only: no symlink is left on it |
| `Resolution.ResolvedExactly` | src/tpm.rs:644-661 | `canonicalize` succeeds with a path if and only if there is a way there by single steps - up, down, along a symlink - that follows no more symlinks than the system allows |
| `Resolution.LinksExactly` | src/tpm.rs:644-661 | a symlink is measured, as its target, if and only if there is such a way to a regular file below the root |
| `Folder.FileList.Push` | src/tpm.rs:648 | pushing appends to the list that the walk shares |
| `Folder.ReadEntries` | src/tpm.rs:622-631 | the children are the directory's entries in listing order |
| `Folder.CollectEntry` | src/tpm.rs:634-670 | one child: skipped, pushed, descended into, or the end of the measurement |
| `Folder.CollectAll` | src/tpm.rs:634-670 | the loop over the children pushes exactly what the walk defines, or reports failure |
| `Folder.CollectRegularFiles` | src/tpm.rs:617-673 | the recursive procedure terminates on every finite file system and pushes exactly the walk's files to the shared list, or reports failure |
| `WalkTheorems.SubtreesAreOrdered` | src/tpm.rs:632 | everything below one child comes before everything below a later one |
| `WalkTheorems.WalkIsExact` | src/tpm.rs:617-673 | the walk fails if and only if something below the root is unreadable; otherwise it collects, once each and in path order, exactly the regular files below the root and the symlinks that end at a regular file below the root |
| `WalkTheorems.CollectedAscend` | src/tpm.rs:632 | the collected paths ascend, component by component and byte by byte |
| `WalkTheorems.NothingLeavesTheRoot` | src/tpm.rs:644-661 | whatever is collected is, or resolves to, a real regular file below the root |
| `WalkTheorems.ListingOrderIsIrrelevant` | src/tpm.rs:622-632 | the walk does not depend on the order in which any directory lists its entries |
| `Measurement.SortedFilesAreCanonical` | src/tpm.rs:551-564 | after the second sort the list is the one list in the order of displayed name, then path, of exactly the collected files |
| `Measurement.HashFiles` | src/tpm.rs:566-599 | hasher and list grow together: the hasher has seen the length-prefixed stream of all files, the list shows all of them; an unreadable file ends the measurement |
| `Measurement.MeasureFolder` | src/tpm.rs:520-614 | the procedure computes the measurement of the folder |
| `DigestTheorems.MeasurementLayout` | src/tpm.rs:551-614 | the whole result of a successful measurement: one item for each file and no other, with displayed name, digest and size of its contents, in ascending order of the raw bytes of the names, and of the path components where names coincide |
| `DigestTheorems.FailsExactly` | src/tpm.rs:520-614 | a measurement fails, always as an internal error, if and only if the path leads to no directory, something below it cannot be looked at or listed, or a file that belongs to it cannot be read |
| `Formats.StreamLayout` | src/tpm.rs:586-588 | the hashed stream byte by byte: for each file the length of the name in eight bytes, least significant first, the name, the 32 bytes of the digest of the contents |
| `Formats.JoinMore` | src/tpm.rs:554-558 | the text of a path is its components with slashes between them |
| `Measurement.MeasurementIsDeterministic` | src/tpm.rs:520-614 | the whole result - list and digest - is independent of listing order at every level, also when two displayed names coincide |
| `Measurement.PrefixIsInjective` | src/tpm.rs:586 | the eight-byte length prefix determines the length |
| `Measurement.StreamDecodes` | src/tpm.rs:586-588 | the digest stream can be decoded in one way only: it determines names, order and file digests |
| `Measurement.EqualDigestsEqualFiles` | src/tpm.rs:606-613 | equal total digests mean equal lists of names and contents, unless the hash collides on the data of these two measurements |
| `DigestTheorems.JoinIsInjective` | src/tpm.rs:554-558 | plain relative paths have different texts |
| `DigestTheorems.PlainDigestsTell` | src/tpm.rs:56-58 | for folders measured with plain names: equal total digests if and only if the same relative paths with the same contents, wherever the folders are, unless the hash collides on the data of these two measurements |
| `DigestTheorems.EqualTotalsSameFiles` | src/tpm.rs:606-613 | equal total digests mean the same files for any sets of paths on which each displayed name belongs to one path only |
| `DigestTheorems.SameFilesSameList` | src/tpm.rs:551-613 | on one system the measured list and its total digest depend on the relative paths and contents of the files only, not on the root, the listing order or anything else in the folder, also where displayed names coincide |
| `DigestTheorems.SameFilesEqualTotals` | src/tpm.rs:606-613 | on two systems whose displayed names tell the paths, the same relative paths with the same contents give the same total digest |
| `DigestTheorems.SharedNameSharedDigest` | src/tpm.rs:554-613 | where two paths share a displayed name there are two folders, one file each, with different files and, for every hash, one total digest |
| `DigestTheorems.BindsExactlyTellingNames` | src/tpm.rs:554-613 | `total_hash` binds the paths out of a given set, for every hash and all pairs of folders with paths in it, if and only if displayed names are injective on the set - a check on names before the call |
| `DigestTheorems.BackslashHidesThePath` | src/tpm.rs:554-557 | the documented promise fails for every hash: for all names x and y without separators whose texts `x\y` and `x/y` are displayed as they are, a folder with the file `x\y` and a folder with `y` in the directory `x` both measure successfully, to the same `total_hash` |
| `Calendar.NoUnderflow` | src/tpm.rs:1620-1631 | for every day number none of the unsigned subtractions underflows and all intermediate values are in range |
| `Calendar.CivilIsRight` | src/tpm.rs:1620-1631 | for every day number, also before 1970, the result is a date of the Gregorian calendar whose day count is that number |
| `Calendar.CivilOfCount` | src/metrics.rs:605-616 | on every valid date of any year the conversion undoes the day count |
| `Calendar.NextDayIsNextDate` | src/logging.rs:261-272 | the next day is the calendar successor across months, leap days, centuries and eras |
| `Calendar.CivilGrows` | src/logging.rs:261-272 | dates grow with day numbers, and day 0 is 1 January 1970 |
| `Decimal.DecimalRoundTrip` | src/metrics.rs:498-505 | decimal printing is read back |
| `Decimal.PaddedIsDigits` | src/tpm.rs:1608-1616 | zero-padding a number that fits prints exactly its digits |
| `Formats.DecimalLayout` | src/metrics.rs:498-505 | each character of a printed number is the literal digit at that place |
| `Formats.DigitsLayout` | src/tpm.rs:1608-1616 | so is each of a fixed number of digits |
| `Timestamp.StampReadsBack` | src/metrics.rs:587-602 | from 1970 to 9999 a timestamp has the fixed length of its format and reads back to the second it shows |
| `Timestamp.StampsKeepOrder` | src/tpm.rs:1601-1617 | later instants have lexicographically larger timestamps, in every format |
| `Timestamp.FormatLengths` | src/logging.rs:242-258 | the three formats are 20, 16 and 19 characters long |
| `Formats.StampLayout` | src/tpm.rs:1601-1617 | the three timestamps of every second of every date from 1970 to 9999, number by number against literals: `-`, `T`, `:`, `Z`, or dots and a space |
| `AuditLog.TwoReplacesAreOneEscape` | src/logging.rs:235 | the two successive replacements escape every backslash and quotation mark exactly once |
| `AuditLog.ReadValueOfQuoted` | src/logging.rs:230-239 | a quoted-if-needed value is read back whatever it contains, up to the separator behind it |
| `Formats.QuotedExactly` | src/logging.rs:227-239 | a value stays as it is if and only if it is not empty and has no white space, quotation mark or equals sign; otherwise it is quoted, with a backslash before each backslash and quotation mark |
| `AuditLog.BuildLine` | src/logging.rs:113-124 | the pushes build the line of the event |
| `AuditLog.Log.constructor` | src/logging.rs:95-102 | a log is opened for appending behind whatever the file holds |
| `AuditLog.Log.WriteEvent` | src/logging.rs:108-131 | behind what was there before, the file stays the log of the events written: one more event when the sink is open and usable, nothing otherwise |
| `AuditLog.LogsJoin` | src/logging.rs:126-129 | a log continued by a second process is the log of both lists of events |
| `AuditLog.OneEventOneLine` | src/logging.rs:20 | the line feeds of an event are its own and those in its values: it is one line if and only if no value contains a line feed |
| `AuditLog.OneLineEach` | src/logging.rs:20 | a log has as many lines as events if and only if no value of any event contains a line feed, and never fewer |
| `AuditLog.OneEventTwoLines` | src/logging.rs:20 | an event that takes two lines |
| `AuditLog.LogGrows` | src/logging.rs:126-129 | appending the line of an event to a log is logging one more event |
| `AuditLog.LogReadsBack` | src/logging.rs:108-131 | a log of any length has one reading: all events with level, message and all values, arbitrary ones included, in order |
| `Gpu.TakeKeyValue` | src/gpu.rs:292-364 | in place of nested matches: which field or chain entry a `key: value` line sets, and whether it is claimed; the chain looked up is always there |
| `Gpu.TakeLine` | src/gpu.rs:264-368 | one iteration of the loop; the current chain stays a key of the current device |
| `Gpu.RunIsBlockwise` | src/gpu.rs:261-373 | reading the remaining lines one by one completes what the blocks mean: open device, further devices, last unclaimed line |
| `Gpu.ParseGpuAttestation` | src/gpu.rs:254-382 | the loop computes the block-wise meaning of the text |
| `GpuTheorems.DeviceCount` | src/gpu.rs:272-289 | there are as many devices as header lines |
| `GpuTheorems.DeviceAt` | src/gpu.rs:272-289 | a device depends on its header, on how many headers precede it, and on the lines up to the next header |
| `GpuTheorems.DeviceIndex` | src/gpu.rs:272-289 | the index of the device of a header is the number the header shows, or, where that cannot be parsed, the number of headers before it modulo 2^32 |
| `GpuTheorems.LineExactly` | src/gpu.rs:264-303 | what a line is, against the literals `- Device ` and `Cert Chain` and the first colon |
| `GpuTheorems.NumberExactly` | src/gpu.rs:277-282 | a header number is digits with an optional plus sign that fit 32 bits |
| `GpuTheorems.KeysMeanFields` | src/gpu.rs:329-358 | the six keys, each its own field and nothing else |
| `GpuTheorems.KeysMeanEntries` | src/gpu.rs:305-327 | the three keys of a chain, each its own entry; a status may have the OCSP result behind a comma |
| `GpuTheorems.LastLineWins` | src/gpu.rs:329-358 | each field of a device is the value of the last line of its body with that key |
| `GpuTheorems.ChainsAreNamed` | src/gpu.rs:297-303 | the certificate chains of a device are exactly those its body names |
| `GpuTheorems.SummaryIsLastUnclaimed` | src/gpu.rs:360-367 | the summary is the last line no device claims; there is none only if every line is claimed |
| `GpuTheorems.ContainsExactly` | src/gpu.rs:375-379 | `contains` holds if and only if the text occurs at some position |
| `GpuTheorems.FlagIsWrongExactly` | src/gpu.rs:134-136 | for every text, against the documented meaning of `successful`: it is never wrongly false, and wrongly true if and only if the last line that no device claims is another than `GPU attestation was successful` and has the word in it somewhere, in any case |
| `GpuTheorems.PrintedFlagIsWrongExactly` | src/gpu.rs:134-136 | the same for every printed report, as a condition on the line behind the devices that can be checked before parsing |
| `GpuTheorems.FlagOfReport` | src/gpu.rs:254-382 | the flag of every printed report, for any devices and any line behind them |
| `GpuTheorems.FailureIsFlaggedSuccessful` | src/gpu.rs:254-382 | parsing a printed report of any devices that ends in "GPU attestation was unsuccessful" or in "GPU attestation was not successful" gives `successful`, with that line as the summary |
| `GpuPrinter.StatusSplits` | src/gpu.rs:386-397 | a printed `Status: s, OCSP: o` is split into the two values it was made of, empty ones included |
| `GpuPrinter.RunChain` | src/gpu.rs:305-327 | the printed lines of a chain fill in exactly that chain |
| `GpuPrinter.RunDevice` | src/gpu.rs:404-425 | the printed lines of a device become that device, whatever was current before |
| `GpuPrinter.PrintedReportParses` | src/gpu.rs:254-382 | parsing undoes printing for every list of devices with optional fields, any chains in any order and any preamble; the summary survives if and only if the last device does not claim it |
| `Metrics.NamesAreThoseSampled` | src/metrics.rs:139-145 | the names in a bucket are exactly those sampled; an unsampled name sums to zero |
| `Metrics.NamesAreDistinct` | src/metrics.rs:139-145 | no name is stored twice |
| `Metrics.NamesAreInOrder` | src/metrics.rs:125-132 | names stand in the order of their first samples |
| `Metrics.MergingKeepsTheTotal` | src/metrics.rs:151-153 | the stored sums add up to the sum of all samples |
| `Metrics.Buckets.constructor` | src/metrics.rs:133-136 | an empty bucket has no samples |
| `Metrics.Buckets.Add` | src/metrics.rs:139-145 | one more sample, merged into its name or appended as a new one; a sum that overflows leaves everything as it was |
| `Metrics.Buckets.Get` | src/metrics.rs:147-149 | the sum of that name's samples, or nothing if it was never sampled |
| `Metrics.Buckets.Sum` | src/metrics.rs:151-153 | the sum of all samples below 2^64 |
| `Metrics.Recorder.constructor` | src/metrics.rs:186-199 | a new recorder is warm, not entered, and has no samples |
| `Metrics.Recorder.EnterHandler` | src/metrics.rs:357-367 | only the first call records the body-read stage, from arrival to now |
| `Metrics.Span.Finish` | src/metrics.rs:291-301 | records one sample in the bucket of its kind if still running; afterwards the span is spent |
| `Metrics.Span.End` | src/metrics.rs:285-308 | `end` followed by the drop records one sample, that of `end` |
| `Metrics.MeasureJson` | src/metrics.rs:341-344 | a span that ends with its scope: one `serialize_us` sample for the recorder in scope, nothing otherwise |
| `Json.EscapeReadsBack` | src/metrics.rs:565-580 | JSON string decoding (RFC 8259, section 7) inverts `escape` for every text |
| `Json.NumberReadsBack` | src/metrics.rs:498-505 | printed integers, also negative ones, are read back |
| `Json.ValueReadsBack` | src/metrics.rs:516-563 | every document printed in this layout - nested and empty objects, any keys and strings - is read back by a reader after RFC 8259, section 4 |
| `Json.DocumentReadsBack` | src/metrics.rs:426-450 | a printed document with the line feed behind it is one JSON text |
| `Render.EscapeText` | src/metrics.rs:565-580 | the loop computes the character-wise escape |
| `Render.PushMap` | src/metrics.rs:516-539 | pushes the object of the items, commas between them and none at the end, also for no items |
| `Render.PushItems` | src/metrics.rs:546-561 | pushes items with a comma in front of all but the very first of both buckets |
| `Render.PushUnits` | src/metrics.rs:541-563 | pushes one object of units and counters, in the empty, units-only and counters-only cases alike |
| `Render.PushField` | src/metrics.rs:489-514 | pushes one scalar field with its escaped value |
| `Render.CheckFolder` | src/metrics.rs:463-469 | the parts of the folder measurement against the whole |
| `Render.ChecksumOk` | src/metrics.rs:452-487 | the three checks, every sum in 64 bits |
| `Render.ChecksumIsTheTotal` | src/metrics.rs:428 | for every record whose residual is within tolerance and whose stages and units pass the parent-and-child checks, `checksum_ok` says exactly whether all units together, children beside their parents, fit the request |
| `Render.PassesExactly` | src/metrics.rs:452-487 | `checksum_ok` of every record with sums below 2^62 in plain arithmetic: residual, folder, report and all units together exceed what they belong to by at most a millisecond or a twentieth; the check on the `tpm2_` units alone never decides |
| `HonestRecord.FolderTimeCountsTwice` | src/metrics.rs:428 | for every run of `/information_tpm`, whatever takes how long, and the units of a measurement with cached key, each nested in the stage of this run that it belongs to: the residual is not negative, and the record passes if and only if the residual is small and the folder time, counted twice beside all commands, still fits the request |
| `HonestRecord.HonestRecordFails` | src/metrics.rs:428 | so the record of an honest run fails: ten seconds, all of them in the measuring stage, most of them spent on the folder |
| `Render.RenderRecord` | src/metrics.rs:426-450 | the pushed text is the document of everything the recorder was told, or a sum has overflowed |
| `Render.RecordReadsBack` | src/metrics.rs:426-450 | a reader of the text gets back every field, every stage and unit in the order of first recording with the sum of its samples, the counters behind the units, the residual and the verdict |
| `Render.SmallSumsAreRendered` | src/metrics.rs:426-450 | only sums near 2^64 keep a record from being rendered |
| `Stages.UnwindKeeps` | src/metrics.rs:304-308 | leaving early drops all guards, newest first, and shares out the time up to then |
| `Stages.RunKeeps` | src/metrics.rs:285-308 | one stage at a time: however a handler is left, the samples outside other stages follow one another |
| `Stages.FlatRunsNestNothing` | src/metrics.rs:43-46 | in a flat handler no sample is taken inside a running stage, on no way out |
| `Stages.MeasuringHandlersAreFlat` | src/tpm.rs:1150-1397 | the three measuring handlers are flat |
| `Stages.VerifyAllIsBlock` | src/tpm.rs:1418-1535 | `verify_all` runs one stage at a time |
| `Stages.StagesAreDisjoint` | src/metrics.rs:43-44 | samples that are not nested are pairwise disjoint intervals, in the order of recording |
| `Stages.SharedOut` | src/metrics.rs:427 | truncated to microseconds, disjoint stages add up to no more than the time between the first and the last |
| `Stages.StagesFitTheRequest` | src/tpm.rs:1150-1397 | on `/information_tpm`, `/quote_tpm` and `/attestation_all` the stages, body read and scratch drop included, are disjoint on every way out and never add up to more than the request |
| `Stages.NothingIsAttributedTwice` | src/metrics.rs:427 | so the unattributed time of these requests is never negative |
| `Stages.OnlyTheDropCountsTwice` | src/tpm.rs:1441-1444 | on `/verify_all` the stages exceed the request by at most the scratch drop |
| `StageRuns.DropsExactly` | src/tpm.rs:1418-1535 | every run of `verify_all` drops a scratch directory if and only if none of the six things before it fails: body, JSON, evidence block, decoding the report, the TDX verdict, making the directory |
| `StageRuns.VerifyAllExclusiveExactly` | src/metrics.rs:43-44 | on `/verify_all`, for every run: a stage lies inside another if and only if it is the scratch drop, and the stages are mutually exclusive if and only if one of those six things fails, so that the request leaves before its scratch directory exists |
| `StageRuns.VerifyAllOverlaps` | src/tpm.rs:1586-1595 | and then they can exceed the request: a run whose stages add up to twice the request |

## Left out

- Rocket routes, guards, catchers, status codes and the JSON of requests and responses (`src/api.rs`, `src/lib.rs`, `src/main.rs`): thin branches; the recorder is passed explicitly instead of through the thread-local.
- Process spawning, ioctl numbers, the kernel module, scripts, environment variables and configuration: outcomes of steps stand for them.
- `classify_failure`: which text on the error stream means an unreachable TPM; the machine chooses between the two error classes.
- The text matching of persistent handles in the output of `getcap`: handle membership stands for it.
- `src/report.rs` and the fixed layout of a TDX report beyond REPORTDATA: straight-line offsets.
- SHA-256, RSA and the report MAC themselves; that `pcr_value` differs from `total_hash`.
- PCR banks other than sha256: the folder digest is always SHA-256; an extension with a digest of another length fails.
- Other users of the TPM, and a TPM restarted while the service runs: the cache is never invalidated, so `Guarantees.CacheIsCurrent` needs that nobody else replaces the key.
- Guarantees.ReachableOk: holds for runs of fewer than 2^64 actions, because the 64-bit scratch counter would wrap after that many directories.
- Guarantees.AnswersAreHonest: if the folder changes while it is read, the bytes a request hashed are any bytes; then the answer says nothing of a snapshot.
- Recovery.EveryScheduleAnswers: turns spent waiting for the lock of another do not count; every holder gives the lock back (`Release.HolderReleases`), but which of several waiting requests is served first is left to the system, so no bound on waiting is claimed.
- Output files of commands are written whole or not at all; a partially written file of a failing command is not modelled, the service does not read it.
- The other fields of a reply that are copied from the configuration (handle, PCR index, simulator directory).
- Permission bits on the directories of a path that is being resolved, and races between listing and reading a folder; `Folder.World` is one state of the file system.
- Names are byte strings; `to_string_lossy` is a function of the world, of which nothing is assumed.
- Files longer than memory, names of 2^64 bytes.
- Days and durations beyond 64 bits, and years of more than four digits in timestamps.
- AuditLog.LogReadsBack: level, message and keys are the program's own words, without spaces, line feeds or (keys) equals signs; a line that was written in part, or by another process at the same time, is not modelled.
- GpuPrinter.PrintedReportParses: values are trimmed single lines, a status has no comma, chain names end in `Cert Chain` and have no colon; anything else is read differently by design.
- Json.ValueReadsBack: the reader takes integers only, and refuses escapes of surrogate halves; the printer produces neither fractions nor such escapes.
- The in-flight counter, the names of the timing files and `log_error`/panic-hook texts: they would only add easy members.
- Stages.StagesFitTheRequest: the clock is monotonic, and a request takes less than 2^64 microseconds; stages of the routes that do not measure are left out.
