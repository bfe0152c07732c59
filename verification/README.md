# caption-hook upload handler, modelled in Dafny

This project models `onVideoUpload`, the storage-triggered cloud function of
caption-hook (`functions/src/index.ts`). When a video lands under
`videos/<owner>/…`, the function does the following:

- finds the matching `uploaded` job record in the `transcriptionJobs` store
  and marks it `processing`;
- downloads the video and extracts 16 kHz mono 16-bit PCM audio;
- stages the audio under `extracted_audio/<owner>/` and runs long-running
  speech recognition on it;
- writes the transcript and word timings into the job with status
  `completed`, or writes status `error` with the failure's message;
- after a successful `completed` write, deletes the staged audio, which
  stays in place on the error path;
- once a job is claimed, tries to remove the local temporary files, whatever
  happened before; a failed video unlink skips the audio unlink.

The handler is a pure function (`Pipeline.Handle`). Its inputs are the storage
event, the record store, a per-invocation unique prefix and the outcome of
every external call (`Pipeline.Outcomes`). It returns the ordered list of
calls it makes (`Pipeline.Effect`), the record it claimed, and whether an
exception escaped. JavaScript `try`/`catch`/`finally` is modelled by
combinators on `Pipeline.Block`, which holds a block's effects and the
message it throws. The record store is a sequence of job records. A record
is referred to by its position, and `PipelineProperties.ApplyEffects` replays
a trace's successful updates on it.

Modules, one per file:

| file | module | contents |
|---|---|---|
| wrappers.dfy | `Wrappers` | `Option`, and `Outcome` (success, or failure with a message) |
| strings.dfy | `Strings` | JavaScript `split`/`join`, `indexOf`, first-occurrence `replace` |
| paths.dfy | `Paths` | Node's POSIX `path.basename` and `path.extname` |
| recognition.dfy | `Recognition` | response shapes, request config, transcript and word timings |
| jobs.dfy | `Jobs` | job records, the pending-job query, partial updates |
| staging.dfy | `Staging` | names of the local copies and of the staged audio object |
| pipeline.dfy | `Pipeline` | the gate, the claim, the processing block, the catch and finally blocks, the handler |
| properties.dfy | `PipelineProperties` | whole-invocation properties: trace shape and effect on the store |

`Run` is the handler after the gate has accepted the upload. Its
per-invocation names are a parameter. `Handle` is the gate followed by `Run`
with the names from `Staging.NamesFor`. Most whole-invocation properties are
stated about `Run`, so they hold for any naming.

## Model

| member | source | states |
|---|---|---|
| Strings.Split | functions/src/index.ts:56 | `split` with a one-character separator yields at least one piece, and no piece contains the separator |
| Strings.JoinSplit | functions/src/index.ts:56 | joining the pieces of a split with the same separator gives back the original string |
| Strings.SplitJoin | functions/src/index.ts:198-200 | splitting a join of separator-free pieces (at least one) gives back the pieces |
| Strings.SplitFirstPiece | functions/src/index.ts:56 | the first piece of a split is `u` exactly when the string starts with `u`, `u` has no separator, and `u` is followed by the end or a separator |
| Strings.JoinBounds | functions/src/index.ts:198-200 | a join of at least one part begins with the first part and ends with the last, and its length is the parts' lengths plus one separator between each two neighbours |
| Strings.IndexOf | functions/src/index.ts:131-134 | the position found is an occurrence and no earlier position is one; `None` only when there is no occurrence |
| Strings.ReplaceFirstSpec | functions/src/index.ts:131-134 | `replace` with a string pattern rewrites the first occurrence and nothing else; it returns the string unchanged exactly when the pattern does not occur or is replaced by itself |
| Strings.ReplaceFirstAt | functions/src/index.ts:131-134 | replacing the first occurrence at `k` keeps the text before `k`, puts the replacement at `k`, and changes the length by the difference of the two texts |
| Strings.ReplaceAtUnchangedIff | functions/src/index.ts:131-134 | replacing the first occurrence of a pattern leaves the string unchanged exactly when the replacement equals the pattern |
| Strings.LastIndexOf | functions/src/index.ts:132 | the position holds the character and no later position does; `None` when the character is absent |
| Paths.Basename | functions/src/index.ts:126 | the base name has no `/`, ends the path once trailing slashes are trimmed, and is the whole last segment |
| Paths.Extname | functions/src/index.ts:132 | the extension is empty or a suffix starting with its only `.`, and it is not the whole name; it is empty exactly for `..` or a name with no `.` after the first character |
| Paths.BasenameOfSegment | functions/src/index.ts:126 | a single segment without `/` is its own base name |
| Staging.NamesFor | functions/src/index.ts:125-137 | the local video name is the unique prefix, `_` and the upload's base name; the local audio name is the prefix, `_` and the audio name of that base name (each as prefix, suffix and exact length); the staging path is `extracted_audio/<owner>/` followed by the local audio name, with its exact length |
| Staging.AudioNameShape | functions/src/index.ts:131-134 | for every base name the extension text occurs, and the audio name has `.wav` where it first occurs, keeps the text before it, and differs in length by `.wav` minus the extension |
| Staging.AudioNameSwapsExtension | functions/src/index.ts:131-134 | when the extension text occurs only at the end of the base name, the audio name is the stem followed by `.wav` |
| Staging.LocalAudioNameSwapsExtension | functions/src/index.ts:127-137 | when the extension text occurs only at the end of the base name, the local audio name is the local video name with its extension replaced by `.wav` |
| Staging.AudioNameWithoutExtension | functions/src/index.ts:131-134 | a base name without an extension gets `.wav` put in front of it, since `replace("")` inserts at position 0 |
| Staging.AudioNameUnchangedIff | functions/src/index.ts:131-134 | the audio name equals the base name exactly when the extension is already `.wav` |
| Staging.TempNamesCollideIff | functions/src/index.ts:127-135 | the local audio file has the same name as the local video copy exactly when the upload's extension is `.wav` |
| Staging.PrefixesSeparateArtifacts | functions/src/index.ts:125-137 | for the same upload, two different unique prefixes give different local video names, different local audio names and different staging paths |
| Recognition.DurationToSeconds | functions/src/index.ts:37-44 | an absent duration is 0; with nanoseconds in range, the whole part of the result is the seconds field |
| Recognition.DurationRecoverable | functions/src/index.ts:37-44 | with nanoseconds in range, seconds and nanoseconds can both be read back from the result |
| Recognition.WordTimings | functions/src/index.ts:202-208 | the flattened timings have exactly as many entries as the segments' first alternatives have words |
| Recognition.WordTimingAt | functions/src/index.ts:202-208 | word `j` of segment `i` sits after all words of earlier segments, with its text, start and end converted |
| Recognition.TranscriptLines | functions/src/index.ts:197-200 | when no segment transcript has a line break, splitting the stored transcript on line breaks gives the segment transcripts back |
| Recognition.TranscriptBounds | functions/src/index.ts:197-200 | the stored transcript begins with the first segment's best transcript, ends with the last one's, and adds exactly one line break between each two segments |
| Recognition.TranscriptOfTwoSegments | functions/src/index.ts:198-200 | segments whose best alternatives are "hello" and "world", each over a different second alternative, give the transcript "hello\nworld" |
| Recognition.WordTimingsOfTwoSegments | functions/src/index.ts:202-208 | the same segments give exactly the best alternatives' word timings, "hello" from 0 s to 1 s and "world" from 1 s to 2 s |
| Recognition.DurationOfFiveAndAHalf | functions/src/index.ts:37-44 | 5 s plus 500 000 000 ns is 5.5 s, and an absent nanosecond field counts as 0 |
| Jobs.FirstMatch | functions/src/index.ts:88-105 | the limit-1 query returns a record with the same path and owner and status `uploaded`, and no earlier record matches; `None` only when none matches |
| Jobs.ApplyWrite | functions/src/index.ts:108-250 | each of the partial updates (`processing` at 108-111, `completed` at 215-221 and 226-232, `error` at 246-250) sets the written fields and the status, and never changes the path or owner |
| Pipeline.Gate | functions/src/index.ts:52-80 | a missing or empty name is dropped first; anything not under `videos/` or without a `video/` content type is ignored; an accepted upload passed both checks |
| Pipeline.GateAcceptsIff | functions/src/index.ts:56-80 | the gate accepts for owner `u` exactly when the content type is `video/…` and the name is `videos/`, a non-empty `u` without `/`, then the end or a `/` |
| Pipeline.ClaimJob | functions/src/index.ts:85-120 | the query comes first; a record is claimed exactly when the query and the update succeed and a pending match exists; the claimed record is the first match; a failed claim touches no media and writes nothing; without a claim the calls are exactly the query, or the query and the failed `processing` update of the first match |
| Pipeline.FirstFailure | functions/src/index.ts:139-234 | the first failing step in order, with every earlier step successful |
| Pipeline.FailureMessageCases | functions/src/index.ts:139-234 | the processing block's message is that of the first failing call among download, extraction, upload, submit, await and the completed write |
| Pipeline.Process | functions/src/index.ts:139-240 | throws exactly the first failure's message; starts with the download; when it throws, nothing is deleted; otherwise the last two calls are the successful `completed` write and the staged-audio delete |
| Pipeline.FirstFailureOfSteps | functions/src/index.ts:139-234 | the first failing step is the download, extraction, upload, submit, await or `completed` write, whichever fails first in that order |
| Pipeline.ProcessStops | functions/src/index.ts:139-241 | the block throws exactly when some step fails, and then has made one call per step up to and including the first failing one; otherwise it makes all six and the staged-audio delete |
| Pipeline.ProcessCalls | functions/src/index.ts:139-221 | the calls after the download are, in order, the extraction from the local video to the local audio with the fixed settings, the upload of the local audio to the staging path as `audio/wav`, the recognition submit on `gs://<bucket>/<staging path>`, the await, and the `completed` write of the response |
| Pipeline.RecordError | functions/src/index.ts:245-257 | one `error` write carrying the message, and a failure of that write does not escape |
| Pipeline.CatchFailure | functions/src/index.ts:241-257 | a block that did not throw is kept as is; one that threw is followed by the `error` write with its message; nothing escapes |
| PipelineProperties.HandlerEffects | functions/src/index.ts:241-257 | the effects added after a try block are exactly what `CatchFailure` appends to it |
| Pipeline.Cleanup | functions/src/index.ts:258-273 | only unlinks, at most two; the video first if it exists; the audio last if the video unlink did not fail and the audio still exists when checked, which after a successful video unlink it does not when the two local names coincide; nothing escapes |
| Pipeline.Run | functions/src/index.ts:85-274 | nothing escapes; the query comes first; a claim leads to the `processing` write and then the download; without a claim there is no media call and no write; without a claim the trace is exactly the query, or the query and the failed `processing` update, so nothing is unlinked |
| Pipeline.Handle | functions/src/index.ts:51-277 | nothing escapes; a rejected event makes no call and claims nothing; an accepted one starts with the query; a claim needs an accepted event and successful query and update; an accepted event runs the handler body on the upload's path and owner with the names `NamesFor` builds from the unique prefix |
| PipelineProperties.HandledUploadNames | functions/src/index.ts:125-166 | for an accepted upload that claims its record, the download (third call) writes to a local name that starts with the unique prefix and `_` and ends with the upload's base name; once download and extraction succeed, the staging upload (fifth call) sends the local audio to a path under `extracted_audio/<owner>/` ending in the local audio name |
| PipelineProperties.ErrorPathWritesOnce | functions/src/index.ts:241-257 | any processing failure leads to exactly one `error` write with the first failure's message, and the staged audio is never deleted |
| PipelineProperties.SuccessPathDeletesStaged | functions/src/index.ts:215-240 | without a failure there is no `error` write, and the staged-audio delete comes right after the successful `completed` write |
| PipelineProperties.ProcessWrites | functions/src/index.ts:215-233 | the processing block updates only the claimed record and only with the `completed` fields of the recognition result; a write that took effect means the block did not throw and is its second-to-last call |
| PipelineProperties.ProcessCallOrder | functions/src/index.ts:139-240 | the processing block unlinks nothing, and deletes the staged audio only right after a `completed` write that took effect |
| PipelineProperties.ClaimedTraceOrder | functions/src/index.ts:139-273 | in a claimed trace, a staged-audio delete follows a successful `completed` write, the trace ends with the cleanup, and no unlink comes before it |
| PipelineProperties.ClaimedTraceAdvances | functions/src/index.ts:108-257 | in a claimed trace, each successful update moves the status forward from the one before it |
| PipelineProperties.ProcessIgnoresDeleteOutcome | functions/src/index.ts:235-240 | the processing block makes the same calls and ends the same way whether the staged-audio delete succeeds or fails |
| PipelineProperties.StagedDeleteFollowsCompletion | functions/src/index.ts:215-240 | every staged-audio delete directly follows a successful `completed` write |
| PipelineProperties.CleanupAlwaysRuns | functions/src/index.ts:258-273 | after a claim, the trace ends with the cleanup's unlinks, and no unlink happens before them |
| PipelineProperties.CleanupSharedFile | functions/src/index.ts:258-273 | when the local audio and video names coincide (a `.wav` upload) and the file exists, the finally block unlinks it exactly once |
| PipelineProperties.CleanupTwice | functions/src/index.ts:258-273 | running the cleanup again after it fully succeeded finds no files and makes no calls |
| PipelineProperties.ErrorWriteFailureSwallowed | functions/src/index.ts:245-257 | a failing `error` write changes neither the calls made nor the claim, and nothing escapes |
| PipelineProperties.StagedDeleteFailureSwallowed | functions/src/index.ts:235-240 | a failing staged-audio delete changes neither the calls made nor the claim |
| PipelineProperties.StagedDeleteFailureKeepsStore | functions/src/index.ts:235-240 | a failing staged-audio delete leaves the record store exactly as a successful one does |
| PipelineProperties.ApplyEffectsAppend | functions/src/index.ts:85-274 | replaying two traces one after the other is replaying their concatenation |
| PipelineProperties.ApplyWithoutWrites | functions/src/index.ts:85-274 | a trace without successful updates leaves the store unchanged |
| PipelineProperties.ApplyUniformWrites | functions/src/index.ts:215-233 | updates that all write the same fields to one record apply them once if any took effect, and change nothing otherwise |
| PipelineProperties.ProcessOnStore | functions/src/index.ts:139-240 | the processing block applies the `completed` write to the claimed record exactly when it did not throw |
| PipelineProperties.HandlerOnStore | functions/src/index.ts:241-257 | the catch block applies the `error` write exactly when the processing block threw and the write succeeded |
| PipelineProperties.UnclaimedStoreUnchanged | functions/src/index.ts:97-120 | an invocation that claims nothing leaves the record store unchanged |
| PipelineProperties.FinalStore | functions/src/index.ts:85-274 | the claimed record was `uploaded` and no other record changes; it ends `completed` with the recognition result, `error` with the first failure's message, or `processing` when the error write also failed |
| PipelineProperties.StatusOnlyAdvances | functions/src/index.ts:108-257 | of any two successful updates in a trace, the later one moves the status forward (uploaded, processing, then completed or error), so nothing follows a terminal write |

## Left out

- SDK and client initialisation, the ffmpeg binary path and the memory option (index.ts:14-29, 46-50) are left out. They do not affect the calls the handler makes.
- The 540-second timeout (index.ts:46-50) is left out. A deadline that stops the invocation part-way runs neither the catch nor the finally block: no `error` write, no cleanup, and the record stays `processing`. Every invocation in the model runs to completion.
- Transcoding itself is left out. `ExtractAudio` records the input, output and settings (codec `pcm_s16le`, 16000 Hz, one channel), and its success or failure is an input.
- Recognition.DurationToSeconds: computed over exact reals rather than IEEE doubles. `Number(seconds)` on a 64-bit value and the division by 1e9 are not rounded, and a zero field (falsy in JavaScript) yields the same value as an absent one either way.
- The race between two invocations claiming the same record is left out. The query and the update are not atomic in the source, and the model runs one invocation against a fixed store.
- `updatedAt` timestamps (`Timestamp.now()`) and `Date.now()` are left out. The unique prefix (`<millis>_<owner>`) is a parameter of `Staging.NamesFor`.
- `os.tmpdir()` and `path.join` are left out. Local names are file names inside the temporary directory.
- Console logging is left out. It has no effect on the outcome.
- The `instanceof Error ? error.message : String(error)` conversion is left out. Every failure carries its message string directly.
- Paths.Extname: modelled only on a base name, which is the only way the handler calls `path.extname`. `Basename` and `Extname` follow the POSIX behaviour of Node's `path.basename` and `path.extname`; the rest of Node's `path` module (`join`, the `win32` variants) is not part of this model.
- Whether each local temporary file exists when the finally block starts is an input (`LocalFiles`). It is not derived from how far the processing block got. The audio's existence check at index.ts:264 runs after the video unlink, so `Cleanup` derives what it observes (`AudioExistsAtCheck`): when the two local names coincide, a successful video unlink removed the audio too.
- Jobs.FirstMatch: the order of the query's results is the order of the store sequence. The store's own ordering is not modelled.
- The `uploadedAudioFile` handle returned by the staging upload is represented by the bucket and staging path the delete targets.
- PipelineProperties.ApplyEffect: a record update whose call reports failure is taken as not applied. A rejected Firestore `update()` may still have landed (a deadline that expires after the write commits, say); the `completed` write at index.ts:215 or 226 could then be followed by the catch's `error` write at index.ts:246. PipelineProperties.FinalStore, PipelineProperties.StatusOnlyAdvances, PipelineProperties.ClaimedTraceAdvances and PipelineProperties.StagedDeleteFailureKeepsStore hold under this reading only.
