# Verified model of the Leone release-evidence tooling

Leone publishes performance and quality claims together with evidence: recorded tokenizer exchanges, server-sent-event
streams, scheduler traces, logits files, library closures, archives and a manifest that pins which records a release must
hold. The Rust server produces the runs; Python, Rust and C tools record, package and check them. This project models the
checking and recording cores of those tools and proves what an accepted piece of evidence guarantees.

SHA-256, JSON text, tar and gzip, the tokenizer server, the language model and file contents are arbitrary functions or
values. A theorem that needs a hash without collisions, or JSON text that reads back, says so in its `requires`, and
`JsonCodec` exhibits JSON text that reads back. UTF-8, hexadecimal, little-endian integers, pure POSIX paths, `str.split`
and `str.splitlines` are modelled in full.

## Modules

| module | models |
|---|---|
| HistoryInputs, History, HistoryReplay, Reuse | a live tokenizer run with its log, the replay from the log alone, and the reuse boundary |
| HistoryLog, HistoryAcceptance, HistoryRun | what a log must hold, and exactly when a replay and a live run accept |
| JsonCodec, HistoryExample | a lossless codec of JSON values, and a live run given in full that is accepted |
| SseParser, ParsedStream, StreamTimes, TraceScan | the incremental event-stream parser, the stream state machine and its timing, the scheduler-trace automaton |
| SseFormat, CompletionFormat | printers of event streams and of completions, and what is read back |
| Gguf, GgufFormat | two cursor readers of GGUF metadata and an encoder of the format |
| Reachability, LinkedLibraries, EvidenceReferences | three depth-first worklists against one notion of reachability |
| Extraction, Manifest, Package | archive extraction step by step, the content manifest, and the way from staging to verification |
| Digests, Flags | length-prefixed hashing, tree and scope digests, the compiler-flag normaliser |
| Windows, Argmax, Quantiles, Sampling | the logits dump loop over C integers, signed-zero argmax, quantiles over the reals, sampled logits files |
| Census, CensusExample | the population of records that a v0.4 manifest must have |
| Arithmetic, Bytes, Json, Orders, PosixPath, Text, Utf8, Wrappers | shared vocabulary, and sorting by an order |

Where the source updates an object or a file cursor, the model is a class with the same fields (`SseEventParser`,
`ParsedStream`, `TraceState`, `Source`, `Destination`, `Hasher`, `Batch`, `Output`); its methods are proved against
functions, and the laws are proved about those functions.

## Where the code says something else than its reader might expect

- A replay does not always reproduce the live evidence. The live run compares the reported model names with the path of
  the loaded file; the replay compares them with the served alias or, without one, with the parent's reported name. The
  two differ exactly as `HistoryReplay.ReplayReproduces` and `HistoryReplay.ReplayWithoutAlias` say, and
  `HistoryExample.ReplayDependsOnName` gives a whole run that is accepted live and rejected on replay. Nothing else can
  keep a replay from reproducing the evidence. A NaN in a request does no harm: Python's JSON decoder has one NaN object,
  and containers take an object to equal itself.
- `ParsedStream.finish` is documented to require terminal token usage. It does not: `ParsedStream.FinishedWithoutUsage`
  gives an accepted stream without usage. An accepted stream has usage exactly when some event before `[DONE]` states it
  (`ParsedStream.ReadStream`).
- The parser accepts LF and CRLF line ends but not a lone CR, and rejects every field but `data`; the living standard
  allows both. With LF line ends, printing and parsing is the identity exactly for events none of whose lines ends in a
  carriage return; with CRLF line ends it is the identity for all (`SseFormat.PrintRoundTrip`).
- A content manifest reads back exactly when a file is staged and no file name holds one of the characters at which
  `str.splitlines` breaks. Such names are legal on disk and are written without complaint.
- The flag normaliser counts a redaction even when the token already was the redacted form, so its count may exceed the
  number of changed tokens. `Flags.RedactionCount` gives the excess as a scan of the input, and
  `Flags.CountedWithoutChange` an input.
- The flag normaliser keeps what stands before the first equals sign, also when that is a path: it rewrites `/home/me=x` to
  `/home/me=<redacted>`. Its output shows a path separator exactly when it meets such a token (`Flags.PathsSurvive`), and
  nowhere else (`Flags.OnlyPathOptionsShow`).
- The Darwin library closure compares paths as they are spelled. A reference that goes up a directory and down again
  spells an ever longer path for the same library, and then the loop never empties its queue
  (`LinkedLibraries.NeverFinishes`). It finishes exactly when a finite set of files holds everything that its links lead
  to (`LinkedLibraries.FinishesExactly`), and so when finitely many reference texts occur and none leads by a relative
  name from its owner's directory into another (`LinkedLibraries.UniverseExists`).
- The two GGUF readers stop at the same offset except on arrays of more than ten million items, which only the history
  producer rejects.
- The census checks do not tie the path of a branching record to its backend: they accept both versions of
  `CensusExample.Example`. `Census.BranchingLinks` says exactly when the two agree.

## Model

| member | source | states |
|---|---|---|
| HistoryReplay.ReplayReproduces | scripts/produce-history-tokenization.py:218-291 | for any server, replaying the evidence of a successful live run on the same raw inputs returns exactly that evidence if and only if both responses name the model the replay expects; otherwise it rejects, and it never returns different evidence |
| HistoryReplay.ReplayWithoutAlias | scripts/produce-history-tokenization.py:948-978 | with no served alias, a replay reproduces the evidence unless the parent reports another name than the branch and the branch reports the full model path |
| HistoryExample.ReplayDependsOnName | scripts/produce-history-tokenization.py:218-262 | a live run given in full is accepted with a branch that reports the base name or the path of the model file; its replay returns the same evidence in the first case and rejects in the second |
| HistoryReplay.ReplayOfRun | scripts/produce-history-tokenization.py:388-445 | replaying the log of a whole tokenizer run gives the same prompts, tokens and log as the run, whatever the server answered |
| HistoryReplay.ReplayPost | scripts/produce-history-tokenization.py:430-445 | one logged exchange replays to the server's live response |
| HistoryAcceptance.ReplayAccepts | scripts/produce-history-tokenization.py:235-262 | a replay returns this evidence if and only if all of this stands: the record keeps its policy; the requests are in scope and controlled; the responses report one process, epoch and model; the slot copy, the history and the tokens fit; the five log exchanges hold the requests that all this calls for and the answers; the counts agree; and each field of the evidence is the stated one |
| HistoryAcceptance.AlteredLogIsRejected | scripts/produce-history-tokenization.py:388-445 | for accepted inputs, a log in which one of the five exchanges is missing, altered or about another request is rejected |
| HistoryLog.RunIsLogged | scripts/produce-history-tokenization.py:388-427 | a replay reads given prompts and tokens off a log if and only if the five exchanges are retained with the requests derived from the raw inputs and the policy, and with responses that hold those prompts and tokens |
| HistoryLog.ExchangeIsRetained | scripts/produce-history-tokenization.py:430-445 | one exchange replays if and only if both texts decode to bytes of their recorded digests, the request loads to a value equal to the expected body, and the response to the object returned |
| HistoryLog.TemplateBody | scripts/produce-history-tokenization.py:1533-1543 | the body of a template request, field by field: the messages, the controls that the request sets, a generation prompt by default and the kwargs of the policy by default, and nothing else |
| HistoryLog.TokenizeBodyAsks | scripts/produce-history-tokenization.py:1546-1551 | a tokenize request carries exactly the text and the two flags that the policy states for its kind |
| HistoryAcceptance.InputsAreThose | scripts/produce-history-tokenization.py:294-326 | the parsed inputs are exactly those that the requests, the responses, the slot copy and the history determine, each check said in full |
| HistoryAcceptance.ProofConfirms | scripts/produce-history-tokenization.py:329-360 | the proof succeeds if and only if parent and branch report the prompts, slots, counts and stops that the tokenizer confirms, and one count is conserved |
| HistoryRun.RunAccepts | scripts/produce-history-tokenization.py:218-232 | with JSON text that reads back, a live run returns this evidence if and only if the policy is declared as pinned, the inputs fit, the server answers the five requests within a mebibyte, and the proof succeeds |
| HistoryRun.RunIsAsked | scripts/produce-history-tokenization.py:1519-1593 | a live run gets these tokens and this log if and only if the server gives these answers to the five requests |
| HistoryReplay.ReplayIsStable | scripts/produce-history-tokenization.py:235-262 | replaying what a replay returned, for any retained record, returns it again and keeps its log, policy, pins and vocabulary |
| HistoryReplay.BoundaryConserved | scripts/produce-history-tokenization.py:329-360 | in accepted evidence evaluated, expected, observed and cached counts, and saved and restored counts of a slot copy, all equal prompt plus generated minus one, and the evaluated tokens are those first tokens and a proper prefix of the branch prompt |
| HistoryReplay.RunConserves | scripts/produce-history-tokenization.py:329-360 | the same single count and proper prefix for the evidence of every successful live run, whatever the server answered |
| HistoryReplay.ReplayConserves | scripts/produce-history-tokenization.py:235-262 | the same single count and proper prefix for whatever a replay accepts from any retained record |
| HistoryReplay.OracleKeepsPrepared | scripts/produce-history-tokenization.py:265-291 | the retained record restores every prepared engine fact except the model's name |
| HistoryReplay.ModelIsForgotten | scripts/produce-history-tokenization.py:329-360 | once parsed, neither replaying nor proving depends on the model's name |
| HistoryInputs.ParseDependsOnModel | scripts/produce-history-tokenization.py:294-326 | changing only the prepared model name leaves parsing unchanged when the names agree and makes it reject when they do not |
| HistoryInputs.IdentityDependsOnModel | scripts/produce-history-tokenization.py:948-992 | for accepted identities, acceptance under another preparation with the same running process is decided by the two model names |
| HistoryInputs.SlotCopyClaim | scripts/produce-history-tokenization.py:853-892 | a claim passes without a copy exactly when both requests use one slot; a copy joins a save and a restore of one file, with the same token count and the same positive size, ordered in time before the branch request |
| HistoryInputs.ParseExchange | scripts/produce-history-tokenization.py:301-308 | accepted requests have valid slots and messages, and carry a slot copy exactly when their slots differ, with equal saved and restored counts |
| History.CheckLlamaParent | scripts/produce-history-tokenization.py:1020-1021 | acceptance forces the reported cached count to be prompt plus generated minus one |
| History.PrepareEngine | scripts/produce-history-tokenization.py:457-473 | a prepared engine has a positive vocabulary, the digest of its own policy, the path of the loaded file as its model, and the declared identity and prefix |
| Reuse.LongestCommonPrefix | scripts/produce-history-tokenization.py:1643-1649 | the loop returns the length of a common prefix after which the lists differ or one ends |
| Reuse.LcpIsPrefix | scripts/produce-history-tokenization.py:1643-1649 | the longest common prefix is all of the left list exactly when it is a prefix of the right one |
| Reuse.CheckedReuseExact | scripts/produce-history-tokenization.py:1620-1640 | the signed-receipt check accepts exactly when one count is conserved everywhere and the evaluated tokens are a proper prefix of the branch prompt, and returns that count |
| Reuse.ChecksAgree | scripts/produce-history-tokenization.py:1090-1109 | the llama.cpp check returns the same outcome as the signed check for every JSON integer count, and rejects everything else |
| SseParser.SseEventParser.Feed | scripts/study-concurrent-service.py:164-184 | one call, on any held bytes and chunk: the events, the rest of the buffer, the pending lines, the event count and the fault are those of interpreting the complete lines of both together |
| SseParser.SseEventParser.ParseLine | scripts/study-concurrent-service.py:201-214 | a comment is skipped, a data line adds its text, another field or invalid UTF-8 is a fault that adds nothing |
| SseParser.SseEventParser.FinishEvent | scripts/study-concurrent-service.py:216-222 | a blank line ends an event only when data lines are pending; it joins them with line feeds and counts the event |
| SseParser.SseEventParser.Finish | scripts/study-concurrent-service.py:186-190 | the stream is complete exactly when no bytes and no data lines are left |
| SseParser.ParseSseEvents | scripts/study-concurrent-service.py:225-233 | for every way to cut a stream into chunks the outcome is that of the whole stream read at once, and each event carries the read time of the chunk that holds the line feed of its blank line |
| SseParser.FeedContinues | scripts/study-concurrent-service.py:164-184 | after a faultless prefix, one more chunk continues the one-piece parse: same events, counters and fault, with offsets moved |
| SseParser.FedRest | scripts/study-concurrent-service.py:164-184 | what a call leaves in the buffer is the unread part of the whole stream, also after a fault |
| SseParser.FedEvents | scripts/study-concurrent-service.py:164-184 | the events of a call complete at line feeds inside its own chunk |
| SseParser.Resume | scripts/study-concurrent-service.py:164-184 | reading a stream in two parts equals reading it at once |
| SseFormat.PrintRoundTrip | scripts/study-concurrent-service.py:192-222 | for printers with LF or CRLF line ends, with or without the space after the colon: any list of events reads back in full and without fault, and with the same texts exactly when no line loses a carriage return at its end (LF) or a space at its start (no space) |
| SseFormat.CrlfRoundTrip | scripts/study-concurrent-service.py:192-199 | with CRLF line ends and the space, every list of events reads back exactly |
| SseFormat.LineEndsAgree | scripts/study-concurrent-service.py:192-199 | a stream in which no line feed follows a carriage return reads to the same texts, pending lines, count and fault when every LF becomes CRLF |
| SseFormat.CommentIsIgnored | scripts/study-concurrent-service.py:202-203 | a comment line between two lines of any stream changes no text, pending line, count or fault |
| SseFormat.OtherFieldIsRejected | scripts/study-concurrent-service.py:204-207 | a line that is neither blank, nor a comment, nor starts with "data:" is a fault wherever it stands |
| SseFormat.NotUtf8IsRejected | scripts/study-concurrent-service.py:208-211 | a data line that is not UTF-8 is a fault wherever it stands |
| ParsedStream.ParsedStream.Consume | scripts/study-concurrent-service.py:259-286 | an event is accepted exactly when `[DONE]` has not been seen and it is `[DONE]` or fits; an accepted event adds its content and updates usage, role, identity, telemetry and the terminal mark as stated; a rejected one adds no content |
| ParsedStream.ParsedStream.ConsumeChoice | scripts/study-concurrent-service.py:301-315 | a fitting choice adds its nonempty text with its read time and marks the stream terminal when it has a finish reason |
| ParsedStream.ReadStream | scripts/study-concurrent-service.py:259-323 | a whole run is accepted exactly when every event fits, `[DONE]` comes once and last, and some choice has a finish reason; the content is that of the events in order, and the usage is the last stated one, which there is exactly when some event states it |
| ParsedStream.FinishedWithoutUsage | scripts/study-concurrent-service.py:317-323 | a stream that is accepted although no event states token usage |
| ParsedStream.ContentsKeepText | scripts/study-concurrent-service.py:301-315 | leaving out empty deltas loses no text |
| ParsedStream.StreamTiming | scripts/study-concurrent-service.py:340-378 | only the first content event lacks an interval; for non-decreasing read times the intervals are non-negative; they sum to last minus first content time |
| CompletionFormat.ServedCompletion | scripts/study-concurrent-service.py:259-323 | a completion served as text chunks, a last chunk with its reason and usage, and the end mark is accepted, and reads back as the joined texts and that usage |
| CompletionFormat.UsageReads | scripts/study-concurrent-service.py:326-337 | usage is read from the three counts by name, and only when the total is the sum |
| CompletionFormat.RejectedEvents | scripts/study-concurrent-service.py:236-315 | events that are rejected whatever else they hold: no JSON object, no choices list, several choices, no choice and no usage, a choice that is no object, telemetry that is no object, invalid usage |
| StreamTimes.MeasureStream | scripts/study-concurrent-service.py:512-535 | a whole response is measured exactly when its bytes parse without rest to a complete stream; it is completed with the last stated usage, or missing its usage exactly when no event states one; elapsed times are those of the content, with chunk read times that never go back no interval is negative, and the intervals sum to last minus first content time |
| StreamTimes.ArrivalsInOrder | scripts/study-concurrent-service.py:164-222 | events carry non-decreasing times when the chunks do |
| TraceScan.ScanTraceEvents | scripts/study-concurrent-service.py:886-894 | the finding holds exactly when the longest well-formed prefix has an open prefill chunk of r, later a positive decode of another request during r, and later a positive chunk of r; the counters count that prefix |
| TraceScan.TraceState.ScanEvent | scripts/study-concurrent-service.py:897-916 | each event moves the in-place state by one step of the specified automaton; a malformed one leaves it alone |
| TraceScan.ScanSets | scripts/study-concurrent-service.py:878-930 | the two sets hold exactly the requests with an open chunk, and those also decoded around since |
| TraceScan.ScanProven | scripts/render-concurrent-evidence.py:58 | the automaton's flag is the three-event pattern that the rendered report claims, and the interleaved set stays inside the set of earlier chunks |
| TraceScan.ScanCounts | scripts/study-concurrent-service.py:897-930 | the counters are the numbers of prefill chunks and of decode events |
| TraceScan.ProgressIsPermanent | scripts/study-concurrent-service.py:897-930 | later events never retract the finding |
| TraceScan.ResidentProgressTrace | scripts/study-concurrent-service.py:841-875 | a trace validates without error exactly when it is an object of the known schema with a list of well-formed events in which the pattern occurs; the counters count prefill chunks and decode events up to the first malformed event |
| Gguf.Source.SkipValue | scripts/generate-openai-chat-template-fixtures.py:60-74 | the recursive cursor walk over nested typed values ends at the specified offset or with the specified fault, under the rules of either reader |
| GgufFormat.SkipEncoded | scripts/produce-history-tokenization.py:589-606 | over every value of the thirteen types, at any nesting, skipping advances by exactly the encoded length, or rejects when an array inside exceeds the reader's limit |
| GgufFormat.UnknownCode | scripts/produce-history-tokenization.py:602-605 | a value of any other type code is rejected by both readers |
| GgufFormat.ReadersAgree | scripts/generate-openai-chat-template-fixtures.py:60-74 | the two readers leave a value at the same offset exactly when no array exceeds the history producer's limit |
| GgufFormat.ReadersInvertEncoder | scripts/produce-history-tokenization.py:546-568 | in every file encoded from the thirteen value types, each with its own code and width, the fixture reader returns the first template string and the history reader the length of the first token array, or the fault that the entry list predicts |
| GgufFormat.FindsTemplate | scripts/generate-openai-chat-template-fixtures.py:77-91 | the search over encoded entries equals the search over the entry list |
| GgufFormat.FindsVocabulary | scripts/produce-history-tokenization.py:546-568 | the token count over encoded entries equals the one over the entry list, limits included |
| Gguf.EmbeddedTemplate | scripts/generate-openai-chat-template-fixtures.py:77-91 | the cursor loop computes the specified search on every byte string, well-formed or not |
| Gguf.GgufVocabulary | scripts/produce-history-tokenization.py:546-568 | likewise for the vocabulary reader |
| LinkedLibraries.DarwinClosure | scripts/linked_libraries.py:130-143 | where the loop finishes, it returns, without repeats, exactly the files reachable from the binary by a nonempty chain of references that are neither system-only nor self-references |
| LinkedLibraries.NamesLeads | scripts/linked_libraries.py:113-119 | where references lead: after "@loader_path/" below the directory of the owner, after "@rpath/" below the library directory, an absolute path to itself, and any other to its last part in the library directory |
| LinkedLibraries.NamedJoins | scripts/linked_libraries.py:122-143 | whatever else a visited owner names is in the closure when it is a file or its reference is no system path |
| LinkedLibraries.MissingSystemLibrary | scripts/linked_libraries.py:122-143 | a path that is no file and that visited owners reach only by system paths is not in the closure |
| LinkedLibraries.OnlySystemLibraries | scripts/linked_libraries.py:122-143 | a binary that refers only to system libraries that are no files has an empty closure |
| LinkedLibraries.FinishesExactly | scripts/linked_libraries.py:130-143 | the loop empties its queue after some number of rounds if and only if a finite set of files holds everything that links lead to from the binary and from its members |
| LinkedLibraries.UniverseExists | scripts/linked_libraries.py:113-143 | there is such a finite set, and the loop finishes, when finitely many reference texts occur and none leads by a relative name from its owner's directory into another |
| LinkedLibraries.NeverFinishes | scripts/linked_libraries.py:130-143 | a linkage on which the loop still has a queue after any number of rounds, whatever the binary |
| EvidenceReferences.RecordArtifactReferences | scripts/release_evidence_validators.py:302-328 | fails exactly when a reachable body is unreadable, and otherwise returns exactly the declared files that some reachable body names |
| EvidenceReferences.CandidatesMean | scripts/release_evidence_validators.py:296-322 | a path text names the path below the directory of its body, and a lone name also below each root |
| EvidenceReferences.ScanBody | scripts/release_evidence_validators.py:316-327 | one body adds exactly the declared files it names, and queues the JSON files among them |
| EvidenceReferences.CheckQualityReferences | scripts/release_evidence_validators.py:331-346 | passes records that are not comparison evidence; accepts others exactly when the comparison names no path, or every reachable body is readable and every declared file is named by one |
| EvidenceReferences.StudyReferences | scripts/release_evidence_validators.py:872-884 | returns exactly the study files reachable through readable JSON bodies; unreadable ones are passed over |
| EvidenceReferences.BranchingClosure | scripts/release_evidence_validators.py:887-892 | accepts exactly distinct study files that are dependencies and all reachable from the record |
| Extraction.NormalizedMembers | scripts/verify-release-archive.py:48-81 | accepts exactly nonempty lists of safe, distinct, non-special members below one top-level name, and returns their normal paths in order |
| Extraction.Destination.MakeDirs | scripts/verify-release-archive.py:92-113 | directories appear along the whole path, unless a file stands in the way |
| Extraction.Destination.ExtractMember | scripts/verify-release-archive.py:92-113 | one step succeeds exactly when no file stands above the member and no directory where a file goes, and its new tree is stated in full |
| Extraction.Extract | scripts/verify-release-archive.py:162-177 | succeeds exactly when the list normalises, a root member is a directory and no file's path lies above another member; the tree is then exactly the members and their ancestors, and the one-directory check cannot fail |
| Extraction.OrderIndependence | scripts/verify-release-archive.py:169-177 | every permutation of the members extracts to the same tree, or none extracts |
| Extraction.PutConflict | scripts/verify-release-archive.py:92-113 | a member can be written over the tree of earlier members exactly when it conflicts with none of them |
| Extraction.PutTree | scripts/verify-release-archive.py:92-113 | writing one member turns the tree of a list into the tree of the longer list |
| Extraction.SafeNames | scripts/verify-release-archive.py:41-45 | a member name is safe exactly when it does not start with a slash, has no piece ".." and has a piece that names something |
| Extraction.NothingLeaves | scripts/verify-release-archive.py:162-177 | every entry of an extracted tree is named by parts without slashes, none of them empty, "." or ".." |
| Extraction.OneRoot | scripts/verify-release-archive.py:162-166 | the tree has one top entry, a directory, above everything else |
| Manifest.ManifestEntries | scripts/verify-release-archive.py:180-199 | reads rows into a table with the specified rejections: missing field, bad digest, unsafe or repeated name, no row |
| Manifest.WriteManifest | packaging/write-manifest.py:31-40 | prints one row for each staged file but the manifest itself |
| Manifest.ManifestRoundTrip | scripts/verify-release-archive.py:180-199 | reading a written manifest gives exactly the staged files with their digests if and only if there is one and no name holds a line break |
| Manifest.EntriesHaveNoBreak | scripts/verify-release-archive.py:180-199 | no accepted manifest, whoever wrote it, names a file with a line break |
| Manifest.RowForms | scripts/verify-release-archive.py:186-197 | a row is read whatever the letter case of its digest, the white space after it and the marks before the name |
| Manifest.RejectedRows | scripts/verify-release-archive.py:186-192 | a row without a name, with a digest of another length, or with an unsafe name is rejected |
| Package.WriteArchive | packaging/make-archive.py:24-47 | one member for each listed path, in the order of the listing, named below the artifact, with the kind and bytes of its entry |
| Package.ArchiveRoundTrip | packaging/make-archive.py:24-47 | extracting the archive of a staged tree rebuilds exactly that tree below the artifact's directory, in any listing order |
| Package.VerifyManifest | scripts/verify-release-archive.py:202-217 | accepts exactly a package whose manifest reads to exactly its files with their digests |
| Package.TamperRejected | scripts/verify-release-archive.py:202-217 | next to a verified package with the same manifest, another verifies exactly when it has the same file paths and digests |
| Package.PackageVerifies | packaging/make-archive.py:24-47 | what is staged, given its manifest, archived in any order and extracted, is always rebuilt, and verifies if and only if a file is staged and no file name holds a line break |
| Digests.DecodeEncode | build-support/provenance.rs:1063-1096 | every field list whose count and lengths fit 64 bits decodes from its encoding |
| Digests.EncodeDecode | build-support/provenance.rs:1063-1096 | whatever decodes is exactly an encoding, so the decoder is total and exact |
| Digests.EncodeInjective | build-support/provenance.rs:1063-1096 | different field lists have different hashed bytes |
| Digests.DigestFields | build-support/provenance.rs:1063-1108 | the hasher loop absorbs exactly the encoding and prints its digest in hexadecimal |
| Digests.DigestsTellApart | build-support/provenance.rs:1098-1108 | with a hash that never collides, printed digests are equal exactly for equal field lists |
| Digests.SourceTreeHash | build-support/provenance.rs:353-381 | there is a digest exactly when every listed path is UTF-8 and readable, and it hashes the listed files, as read, in the order of their paths |
| Digests.ListingOrder | build-support/provenance.rs:353-381 | listings of the same distinct paths in any order give the same sorted files |
| Digests.TreePreimage | build-support/provenance.rs:353-381 | two trees with distinct paths have the same hashed bytes exactly when they hold the same files |
| Digests.ListingSplits | build-support/provenance.rs:364-366 | a NUL-terminated listing splits into its paths |
| Digests.JoinedNamesSplit | build-support/provenance.rs:434-438 | the reported names split at the commas into the names; an empty scope reports "none" |
| Digests.Scope | build-support/provenance.rs:426-441 | reports strictly ascending names, the same set as the given ones, and the digest of their values |
| Digests.ScopeIsASet | build-support/provenance.rs:426-441 | order and repetition of names change neither the names nor the hashed bytes, and any other set of names changes the bytes |
| Flags.NormalizedFlags | build-support/provenance.rs:924-959 | the peeking loop computes the recursive rewriting and its redaction count |
| Flags.NormalizeTwice | build-support/provenance.rs:924-985 | normalising twice is normalising once |
| Flags.ValueIsRedacted | build-support/provenance.rs:924-959 | in the output, whatever follows an option that takes a private value is the marker |
| Flags.RedactedPositions | build-support/provenance.rs:924-985 | positions are preserved: an unredacted token is unchanged and a redacted one ends in the marker |
| Flags.PrivateMeans | build-support/provenance.rs:961-971 | a token is private exactly when it holds a path separator or starts, in any letter case, like one of four options |
| Flags.InlineValueIsHidden | build-support/provenance.rs:980-985 | the value after the equals sign of such an option is hidden, and the rest is normalised on its own |
| Flags.NextValueIsHidden | build-support/provenance.rs:924-959 | the token after an option that takes a private value is hidden, and so is a path after -C |
| Flags.OthersAreKept | build-support/provenance.rs:924-971 | any other token is kept |
| Flags.OnlyPathOptionsShow | build-support/provenance.rs:924-985 | an output token with a path separator is an input token cut at its first equals sign, with a separator before that sign, and ends in the marker |
| Flags.PathsSurvive | build-support/provenance.rs:924-985 | some output token has a path separator if and only if the scan meets a token with a separator before its first equals sign that is not the value of another option |
| Flags.PathSurvives | build-support/provenance.rs:980-985 | an input whose path survives before the equals sign |
| Flags.RedactionCount | build-support/provenance.rs:924-959 | the count is the number of changed positions plus the excess of the input; the two are equal exactly on inputs without excess, among them all in which no token ends in the marker |
| Flags.CountedWithoutChange | build-support/provenance.rs:924-959 | an input with one counted redaction and no changed token |
| Windows.DecodeWindows | external/shim/logits-dump.c:139-168 | with C integer widths and no overflow: succeeds if and only if every window decodes, every row can be written and the file flushed; then all count-1 rows are written, each once and in order, row r from context start (r/(w-1))*(w-1), in ceil((count-1)/(w-1)) windows; a failure leaves a prefix of those rows, ending where the contract says |
| Windows.DumpWindow | external/shim/logits-dump.c:92-121 | filling the batch arrays by index presents the window as one sequence from its start, with positions and sequence ids; rows of all its positions but the last are appended up to the first failure |
| Windows.ReadTokens | external/shim/logits-dump.c:62-90 | a token file is read in full, or rejected for its size or a token beyond the signed range |
| Windows.TokensAreWords | external/shim/logits-dump.c:62-90 | token k is the little-endian number of its four bytes, and a file reads exactly when no number exceeds the signed range |
| Windows.ShapeMatchesDump | scripts/validate-quality-stage.py:379-388 | an input shape that the quality stage accepts is one the dump accepts, with the rows and strides that the dump writes |
| Argmax.CanonicalArgmax | scripts/validate-quality-stage.py:425-433 | the loop computes the specified scan, with its three rejections |
| Argmax.BestIsLeastMaximum | scripts/validate-quality-stage.py:425-433 | on every row without NaN the scan ends at the least index that is maximal in the total order with the negative zero below the positive one |
| Argmax.CanonicalArgmaxExact | scripts/validate-quality-stage.py:425-433 | succeeds exactly on nonempty rows without NaN whose maximum is finite, and returns the least maximal index |
| Argmax.LeastMaximumIsUnique | scripts/validate-quality-stage.py:425-433 | no row has two least maxima |
| Quantiles.QuantileAtRank | scripts/study-concurrent-service.py:118-122 | at probability (k + f) / (n - 1) the quantile of n observations is (1 - f) times the k-th smallest plus f times the next, for every f from 0 to 1 |
| Quantiles.QuantileLandmarks | scripts/study-concurrent-service.py:108-122 | probability 0 gives the least observation, 1 the greatest, and one half the middle one, or the mean of the two middle ones |
| Quantiles.QuantileIsPercentile | scripts/validate-quality-stage.py:436-440 | the study's quantile equals the quality stage's percentile of the sorted sample, although their upper neighbours differ |
| Quantiles.PermutationInvariance | scripts/study-concurrent-service.py:108-122 | the order of the observations does not matter, rejections included |
| Quantiles.WithinRange | scripts/study-concurrent-service.py:108-122 | a quantile lies between any bounds of the observations |
| Quantiles.MonotoneInProbability | scripts/study-concurrent-service.py:108-122 | a higher probability never gives a lower quantile |
| Quantiles.MonotoneInObservations | scripts/study-concurrent-service.py:108-122 | raising observations, in any order, never lowers a quantile |
| Sampling.Linspace | scripts/write-cuda-quality-comparison.py:165-169 | the base rows increase strictly from 0 to the last row, and are all rows of a source of at most 128 |
| Sampling.EvenSpacing | scripts/write-cuda-quality-comparison.py:165-169 | neighbouring base rows are the rounded-down mean distance apart, or one more |
| Sampling.SampledRowsExact | scripts/write-quality-samples.py:56-64 | the merged list is strictly increasing with exactly the base and task rows; the checked versions accept exactly task rows inside the source, and the list then runs from row 0 to the last row |
| Sampling.SampleFile | scripts/write-cuda-quality-comparison.py:189-218 | writes the listed rows and their record exactly when the source has its hash before and after and every row can be read |
| Sampling.SampledMetadata | scripts/freeze-cuda-generation.py:172-188 | the freezer's prediction is exactly the record that the writer makes |
| Sampling.SampleLogits | scripts/write-quality-samples.py:84-105 | the Metal writer writes the same file and record, exactly when size and hash match, the hash still matches afterwards and the rows can be read |
| Sampling.RowsFill | scripts/write-cuda-quality-comparison.py:189-218 | position p of the sample holds row indices[p] of the source, and the rows fill the file |
| Sampling.ValidateSampleFile | scripts/validate-quality-stage.py:555-569 | accepts exactly a file of the recorded size and hash whose every row has its recorded hash |
| Sampling.WrittenIsAccepted | scripts/validate-quality-stage.py:555-569 | whatever the writers write is accepted |
| Sampling.AcceptedIsSample | scripts/validate-quality-stage.py:506-569 | with a hash that never collides, a sample accepted against the row hashes of a full file is exactly those rows of it |
| Sampling.TokensAgree | scripts/write-cuda-quality-comparison.py:797-804 | the CUDA writer's first token is the one the validator expects, and the tokens exist exactly when the stream is longer than the rows |
| Sampling.ValidateTaskLogits | scripts/validate-quality-stage.py:1435-1454 | accepts exactly when, in the sample of every subject, every task row is present and its argmax is the answer's token |
| Sampling.TaskArgmaxMeans | scripts/validate-quality-stage.py:478-484 | the argmax of a row is the least maximum of the floats of its words, if it is finite and none is NaN; a row that the file cuts off has none |
| Sampling.SampleDecidesTask | scripts/validate-quality-stage.py:478-486 | on a written sample the task check accepts exactly when every task row of the full file argmaxes to the answer |
| Census.Validate | scripts/release_evidence_manifest.py:1066-1075 | what it returns is a full release: 14 records at distinct paths, one for each slot |
| Census.RecordEntries | scripts/release_evidence_manifest.py:200-215 | collects the records exactly when every record is well declared, backends are complete, distinct and the two native ones, and shared records are distinct |
| Census.CountedIsPopulation | scripts/release_evidence_manifest.py:936-1056 | for records with native identities, the role, family and identity counts spread over six functions pass exactly when the records fill the fourteen slots of a release, each once |
| Census.Census | scripts/release_evidence_manifest.py:1066-1075 | an accepted manifest has exactly 14 records at distinct paths, 6 CUDA, 5 Metal and 3 shared, one in each slot |
| Census.SlotFilled | scripts/release_evidence_manifest.py:936-979 | in an accepted manifest each slot, such as the quality record of a family on a backend, is filled by one record only |
| Census.RecordContract | scripts/release_evidence_manifest.py:621-692 | a record passes exactly with a native identity, a validator of its role, the model family, place, schema and quality record of the role, the mode of a stage record, and a binary where a complete release needs one |
| Census.AcceptedEntries | scripts/release_evidence_manifest.py:200-215 | an accepted manifest has two requirements with the two reviewed names and the two native identities, each with records, and shared records; every record declares normal paths, a named family and digests of 64 digits |
| Census.AcceptedFiles | scripts/release_evidence_manifest.py:480-489 | the files of an accepted manifest are distinct normal paths, with every record and the manifest among them, and its families are the two reviewed ones |
| Census.BinariesAgree | scripts/release_evidence_manifest.py:1002-1027 | in an accepted manifest batching and branching records carry the binary of the client record of their backend |
| Census.QualityIsComparison | scripts/release_evidence_manifest.py:953-955 | in an accepted manifest the quality records of the backends are stage comparisons |
| Census.BranchingLinks | scripts/release_evidence_manifest.py:1030-1043 | exactly two branching records, at the two reviewed paths, linked to two different records, each the qwen3 comparison of its own backend; a path names its backend exactly when the linked path does |
| CensusExample.ExampleAccepted | scripts/release_evidence_manifest.py:678-692 | a manifest that the modelled checks accept, also with the two branching paths exchanged between the backends |

## Left out

- HTTP, sockets, processes, clocks, temporary files and atomic replacement: effects without state of their own; what they
  deliver is a parameter.
- SHA-256, Ed25519, JSON text, tar, gzip and float unpacking: arbitrary functions.
- The signed-receipt production path of `scripts/produce-history-tokenization.py` other than its reuse check: its further
  checks are single comparisons.
- The walk over raw wire events (`_wire_objects`, `_find_value`): its findings are a function in `HistoryInputs.World`.
- Key order in JSON text: requests and policies are compared as values. Text with lone surrogates and the sign of a
  floating-point zero in JSON are not modelled.
- HistoryInputs.ParseExchange: its contract states slots, messages and the slot copy; `HistoryAcceptance.InputsAreThose`
  states all of its checks.
- History.CheckLlamaParent: its contract states the cached count; `HistoryAcceptance.ProofConfirms` states all checks.
- History.PrepareEngine: artifacts, template and key are parameters, since a replay never looks inside them.
- Field-by-field validators, KL divergence, logsumexp and float tolerances: settled by one branch each, or about rounding.
- Quantiles and timing are over the reals: rounding of IEEE arithmetic is not modelled.
- StreamTimes.MeasureStream: the source also times the content of incomplete, malformed and cut-off streams
  (scripts/study-concurrent-service.py:502-506, 539-541); here only complete ones are. `ParsedStream.StreamTiming` is stated
  for any content.
- Symlinks, permission bits, tar name limits and what a failed extraction leaves behind.
- Python's recursion limit in the GGUF walk, and non-integer trace counts, which raise a TypeError.
- The order of directory listings: theorems hold for every order, so sorting is not modelled there.
- LinkedLibraries.DarwinClosure: requires exactly that the loop finishes, since a method has to; `FinishesExactly` and
  `NeverFinishes` are about every linkage. Path length limits of a real file system are not modelled.
- Manifest.ManifestEntries: `lower()` of a digest is modelled on ASCII letters; any other letter is rejected by the digest
  check.
- Windows.DecodeWindows: a failed write may also leave part of a row; only whole rows are recorded.
- Windows.DumpWindow: likewise records whole rows only.
- Windows.ShapeMatchesDump: leaves out the vocabulary and the comparison with the declared fields.
- Sampling.SampledRowsExact: the two writers and the validator spell the row list in the same way, and the model has it
  once; they differ in the range check, which it has as `Sampling.CheckedRows`.
- Sampling.SampleFile: rows are read from one content of the source; only what it holds afterwards may differ.
- Sampling.SampleLogits: likewise.
- Sampling.ValidateSampleFile: leaves out the path and metadata fields of the sample record.
- Census.RecordEntries: the digests of records are given in lower case.
- Census.Validate: models the v0.4 line on decoded records. It drops the checks on header and status, source paths of
  files, the source manifest, trusted validators, dependencies and sidecars, quality receipts, study and history files,
  packaged validator scripts, artifact roots and files, native artifacts, trusted inputs and generation records, metric
  family, corpus, oracle model, sample contract, statistics target and platform, source commits, record hashes and
  float files. They only reject more, so the census holds for the full validation too.
- CensusExample.ExampleAccepted: is about the checks that `Census.Validate` models.
- The other fields of the trace report, `empirical_quantiles`, `_balanced_orders` and the Linux closure: they would only
  add easy members.
- The Rust server, its kernels and the load generator are not part of this model.
