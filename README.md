# On-device screen-saver builder — verified model

This project models, in Dafny, the logic at the heart of a browser tool that
turns a video into a macOS screen saver. The user supplies a video; a web
worker running ffmpeg probes it and, as needed, transcodes or remuxes it to
H.264/AAC in an MP4 container. The page then edits a template `.saver`
bundle held in a zip archive:

- it strips the code signature;
- it swaps in the new `payload.mp4`;
- it sets `CFBundleName` and `CFBundleIdentifier` in `Info.plist`;
- it renames the bundle root to the chosen saver name;
- it offers the bundle and an installer archive (the bundle plus an
  `install.command` script) for download.

The model covers two source files.

From `ffmpeg-worker.js`:

- `Classifier`: the probe-text classifier `analyse` and its helper `codec`.
  Each regular expression is written out as a string predicate.
- `EngineArgs`:
  - the command lines built by the `transcode` and `remux` handlers;
  - `formatBootstrapError`.

From `app.js`:

- `Orchestrator`: `prepareVideo`. The mode decision table, the single silent
  retry and the ordered notes. The engine's replies are inputs (`Reply`).
- `Bridge`: `createWorkerBridge`. A class holding the pending-request map and
  the request counter. Promise settlement is recorded in a `settled` map, and
  each worker event is a method call.
- `Progress`: `createProgressTracker`. A class over `current` and the worker
  window, using `real`.
- `Plist`: `upsertKey` and `patchPlist`, over the `<dict>` children seen as
  `(tag, text)` elements.
- `Archive`: a class `Zip` whose `files` map mirrors JSZip's file table. It
  covers `findBundleRoot`, `rebase`, `stripSignatures` and the payload swap.
- `Installer`: `createInstaller` and `installerScript`.
- `Naming`: `sanitize` and the name and bundle-id defaults.
- `Build`: the bundle-editing steps of `buildSaver`, composed from the above.

`Wrappers` (Option/Result) and `Text` (JavaScript's `trim`, `toLowerCase`,
`indexOf`, `split`, `startsWith`/`endsWith`) are supporting modules.

Three behaviours of the code are reproduced as they are:

- **The format capture.** The regular expression `/Input #0,\s*([^,]+)/`
  keeps only the first comma-separated demuxer name. For a real MP4, ffmpeg
  prints "mov,mp4,m4a,…", so `format` is "mov" and `containerOK` is false.
  Since `copySafe` requires `containerOK` (ffmpeg-worker.js:150-151), the
  remux branches of `prepareVideo` (app.js:263-276) are not taken for such a
  file, and it is transcoded in every mode.
  `Classifier.Mp4HeaderIsNotContainerOK` states this.
  The capture also reproduces the regex engine's backtracking: with only
  white space before the next comma, one white-space character is captured.
- **The installer's default permissions.** `createInstaller` tests
  `${rootName}.saver/Contents/MacOS/`, but it is called with a `rootName`
  that already ends in ".saver", so the 0o755 default never fires for bundle
  paths (`Installer.InstallerExecutableDefaultNeverApplies`). `rebase`'s
  default does fire (`Installer.RebaseExecutableDefaultApplies`).
- **Pending jobs after a crash.** The bridge is not marked dead after
  `failPending`. Later calls are accepted again.

## Model

| member | source | states |
|---|---|---|
| Text.Trim | ffmpeg-worker.js:138 | JavaScript's `trim`: the result is the text starting where the leading white space ends, with no white space at either end; text without white space is unchanged |
| Text.TrimMaximal | ffmpeg-worker.js:138 | everything `trim` drops, before and after the result, is white space |
| Text.TrimKeepsNonSpace | ffmpeg-worker.js:138 | every non-space character of the text survives `trim` |
| Classifier.Lines | ffmpeg-worker.js:138 | the text is split at '\n' and every line is trimmed, one line per piece |
| Classifier.Find | ffmpeg-worker.js:139-141 | `Array.find`: the first line satisfying the predicate, and no earlier line satisfies it; nothing when no line does; when line `i` is the first match the result is that line |
| Classifier.FirstAtUnique | ffmpeg-worker.js:139-141 | at most one index is the first line satisfying a predicate |
| Classifier.Codec | ffmpeg-worker.js:166-169 | null exactly when the marker does not occur; otherwise the text after the first occurrence of the marker up to the next comma (or the end), trimmed: a comma-free token with no white space at either end |
| Classifier.NextComma | ffmpeg-worker.js:168 | the end of the first `split(',')` piece: no comma from the start up to it, and it is the end or a comma |
| Classifier.CommaEndUnique | ffmpeg-worker.js:168 | that end position is unique |
| Classifier.CommaEndIsBefore | ffmpeg-worker.js:168 | the first piece of `split(',')` after the start is the text up to that end |
| Classifier.CaptureAfterMarker | ffmpeg-worker.js:142 | `\s*([^,]+)` anchored after the marker: a non-empty, comma-free capture; the text up to the first comma after the white space when that is non-empty; when only white space comes before the next comma or the end, backtracking captures the last white-space character alone; no match exactly when the rest is empty or starts with a comma |
| Classifier.CaptureFrom | ffmpeg-worker.js:142 | a capture exists only if the marker occurs at or after `from`, and is non-empty and comma-free |
| Classifier.CaptureFormat | ffmpeg-worker.js:142 | the capture exists only if "Input #0," occurs; when the first occurrence is followed by a non-comma after the white space, the capture is the text up to the next comma |
| Classifier.CaptureSkipsToFirstOccurrence | ffmpeg-worker.js:142 | the regex search gives the same result when started anywhere before the first occurrence of the marker |
| Classifier.CaptureFindsMatch | ffmpeg-worker.js:142 | a marker followed directly by a non-comma always yields a capture |
| Classifier.FormatOf | ffmpeg-worker.js:139-142 | absent when no line starts with "Input #0"; when line `i` is the first such line, the format is that line's capture; a present format is non-empty and comma-free |
| Classifier.VideoCodecOf | ffmpeg-worker.js:140-143 | absent exactly when no line has both "Stream #0:0" and "Video:"; when line `i` is the first such line, the result is its `codec` for "Video:" |
| Classifier.AudioCodecOf | ffmpeg-worker.js:141-144 | absent exactly when no line has both "Stream #0:" and "Audio:"; when line `i` is the first such line, the result is its `codec` for "Audio:" |
| Classifier.ContainerOf | ffmpeg-worker.js:145-146 | present exactly when the lower-cased, trimmed format is non-empty, and then it is that text |
| Classifier.Mp4LikeFormat | ffmpeg-worker.js:145-147 | the whole-word test on `(format \|\| '')` lower-cased equals "format present and its lower-case form has mp4, m4v or isom as a whole word" |
| Classifier.Analyse | ffmpeg-worker.js:137-164 | each field comes from the lines as the source computes it; `copySafe == containerOK && videoOK && audioOK`; `isCompatible == copySafe`; `hasAudio` is truthiness of the audio codec; no audio implies `audioOK` |
| Classifier.Mp4HeaderCapture | ffmpeg-worker.js:142 | from ffmpeg's MP4 header line "Input #0, mov,mp4,…" the capture is "mov" |
| Classifier.MovIsNotMp4Like | ffmpeg-worker.js:147 | "mov" contains none of the words mp4, m4v, isom |
| Classifier.Mp4HeaderIsNotContainerOK | ffmpeg-worker.js:142-150 | when the first input line is an MP4 header, the format is "mov" and `containerOK` and `copySafe` are false |
| Classifier.H264StreamCodec | ffmpeg-worker.js:140-149 | an ffmpeg line "Stream #0:0(und): Video: h264 (High), …" is a video line, its codec is "h264 (High)", and that codec passes the H.264 test |
| EngineArgs.InputName | ffmpeg-worker.js:88 | the input file name always ends in ".src" |
| EngineArgs.TranscodeVideoArgs | ffmpeg-worker.js:95 | the base arguments are 14 elements |
| EngineArgs.TranscodeAudioArgs | ffmpeg-worker.js:96 | exactly `["-an"]` when `hasAudio === false`; otherwise six elements |
| EngineArgs.TranscodeArgs | ffmpeg-worker.js:95-98 | starts `-i <input>` and ends with `payload.mp4`; holds the pairs `-map 0:v:0`, `-c:v libx264`, `-crf` (default "20"), `-preset` (default "medium"), `-pix_fmt yuv420p`, `-movflags +faststart`; with audio, `-map 0:a:0?`, `-c:a aac`, `-b:a` (default "128k"); silent, `-an` |
| EngineArgs.TranscodeSilentIff | ffmpeg-worker.js:95-96 | for options that are not themselves flags, `-an` is in the transcode command exactly when `hasAudio === false`, and then `-c:a` and `-b:a` are absent |
| EngineArgs.RemuxArgs | ffmpeg-worker.js:119-122 | starts `-i <input> -map 0:v:0 -c:v copy`; ends `-movflags +faststart -f mp4 payload.mp4`; `-an` present exactly when `hasAudio === false`, otherwise `-map 0:a:0? -c:a copy` follows; never re-encodes audio ("aac" absent) |
| EngineArgs.FormatBootstrapError | ffmpeg-worker.js:22-26 | always starts with "FFmpeg bootstrap failed"; no error gives that text plus "."; a message with the prefix is returned unchanged; any other message `m` gives exactly the prefix, ": " and `m` |
| EngineArgs.FormatBootstrapErrorIdempotent | ffmpeg-worker.js:22-26 | formatting an already formatted message gives it back, so the prefix is never doubled |
| Bridge.EnginePayload | app.js:440-453 | the buffer is passed through; a non-empty name is kept, otherwise the name is "<action>-<time>"; `hasAudio` is set (to false) exactly when the option is false, and never true; other options pass through |
| Bridge.ProbePayload | app.js:435-438 | the probe payload carries the buffer and the given name, and no `hasAudio` |
| Bridge.RejectAll | app.js:384-388 | every pending id is rejected with the reason; every other settled job is kept |
| Bridge.RejectAllConsistent | app.js:384-388 | rejecting every pending job and clearing the map keeps the bridge's invariant (ids below the counter, each id pending or settled, never both) |
| Bridge.RejectInOrder | app.js:386 | the loop over pending jobs in id order settles exactly the pending ids below the bound as rejected |
| Bridge.WorkerBridge.constructor | app.js:380-382 | a new bridge has no pending or settled jobs and counter 0 |
| Bridge.WorkerBridge.Call | app.js:422-432 | the new id is the old counter, which then grows by one; the id was never used; when posting works the job is pending and the request posted; when posting throws the job is rejected with that error at once and nothing stays pending |
| Bridge.WorkerBridge.OnMessage | app.js:390-408 | progress and log go to their callbacks only; a result or error for a pending id removes it and resolves or rejects it once (message default "FFmpeg worker error."); an unmatched error only reaches `onError`; settled jobs are never changed |
| Bridge.WorkerBridge.FailPending | app.js:384-388 | all pending jobs are rejected with the message (or "FFmpeg worker crashed.") and the map is emptied |
| Bridge.WorkerBridge.OnError | app.js:410-414 | fails every pending job with the error's message or "FFmpeg worker crashed.", then reports "FFmpeg worker crashed. See console." |
| Bridge.WorkerBridge.OnMessageError | app.js:416-420 | fails every pending job and reports "FFmpeg worker communication error." |
| Bridge.WorkerBridge.ProbeVideo | app.js:435-439 | a `call('probe', …)` with the probe payload: a fresh id; when the post succeeds that id is pending with the "probe" request and nothing else changes; callbacks untouched |
| Bridge.WorkerBridge.TranscodeVideo | app.js:440-446 | a `call('transcode', …)` with the payload built from the options and the "transcode" name prefix: a fresh id; when the post succeeds that id is pending with that request and nothing else changes; callbacks untouched |
| Bridge.WorkerBridge.RemuxVideo | app.js:447-453 | a `call('remux', …)` with the payload built from the options and the "remux" name prefix: a fresh id; when the post succeeds that id is pending with that request and nothing else changes; callbacks untouched |
| Progress.Clamp | app.js:460 | the result lies in [0, 1]; values inside are kept, values below give 0, values above give 1 |
| Progress.ClampMonotone | app.js:460 | clamping preserves order |
| Progress.Scaled | app.js:483 | `span * fraction` lies between 0 and the span |
| Progress.WorkerValue | app.js:483 | `base + span * clamp(ratio ?? 0)` lies in [base, base + span]; no ratio gives base; a ratio of at least 1 gives base + span |
| Progress.WorkerValueMonotone | app.js:481-488 | a larger worker ratio never gives a smaller value |
| Progress.ScaledMonotone | app.js:483 | scaling by a non-negative span preserves order |
| Progress.Raised | app.js:467-473 | the result is the larger of the two values |
| Progress.ProgressTracker.constructor | app.js:457-459 | starts at 0 with no window |
| Progress.ProgressTracker.Reset | app.js:462-466 | back to 0 with no window |
| Progress.ProgressTracker.Set | app.js:467-473 | `current` becomes the larger of itself and the clamped value, so it never decreases; the window is unchanged |
| Progress.ProgressTracker.StartWorker | app.js:474-476 | the window is the clamped base and span; `current` is unchanged |
| Progress.ProgressTracker.StopWorker | app.js:477-480 | the window is cleared; with a number, `current` is raised as by `set`, otherwise unchanged |
| Progress.ProgressTracker.UpdateFromWorker | app.js:481-488 | without a window nothing changes; with one, `current` rises to the window's value for the ratio if that is larger, never lower |
| Orchestrator.Decide | app.js:257-280 | the decision table: force transcodes; no probe transcodes; passthrough remuxes exactly when `copySafe`; auto remuxes exactly when `isCompatible` or `copySafe` |
| Orchestrator.AudioOption | app.js:219 | the `hasAudio` option is false exactly when the probe said no audio, and never true |
| Orchestrator.Prepare | app.js:207-286 | one or two engine calls; the first uses the decided runner and the audio option |
| Orchestrator.ForceAlwaysTranscodes | app.js:258-259 | in force mode every call is a transcode |
| Orchestrator.NoProbeTranscodes | app.js:261-262 | without a probe every call is a transcode, in every mode |
| Orchestrator.OneRunner | app.js:240-255 | every call uses the decided runner; a remux is one call, its success is always "stream-copied MP4 container", and its failure escapes unchanged |
| Orchestrator.RetryExactlyWhen | app.js:225-230 | there is a second call exactly when a transcode's first call fails, audio is not known to be absent, and the message matches `/match.*streams\|specifie/i`; the retry is a transcode with `hasAudio` false |
| Orchestrator.NoRetryWhenKnownSilent | app.js:227-228 | with audio known absent there is one call and its failure escapes |
| Orchestrator.TranscodeOutcomes | app.js:213-237 | on first success: "transcoded (video only)" if the probe said no audio, else "transcoded to H.264/AAC", with notes `[reason]`; after a retry: "transcoded to H.264 (silent)" with notes `[reason, retry note]`, or the retry's error |
| Orchestrator.ChainedProbesSkipDeadBranches | app.js:263-276 | for a probe whose flags form the chain, the passthrough "rewrapping" branch and the auto "container mismatch" branch are never chosen |
| Orchestrator.AnalysedProbesSkipDeadBranches | app.js:263-276 | for every probe produced by `analyse`, those two branches are unreachable |
| Orchestrator.CallsDropAudioExactlyWhenSilent | app.js:218-230 | every transcode call's command line holds `-an` exactly when the call passes `hasAudio` false |
| Orchestrator.PrepareVideo | app.js:207-286 | the imperative run equals the decision table and retry above; afterwards the worker window is closed and the bar was raised to 0.82 (transcode) or 0.7 (remux) |
| Plist.FirstKeyFrom | app.js:502-503 | the first index from `from` holding a `<key>` with the text, or none when there is none |
| Plist.FirstKey | app.js:502-503 | the first `<key>` child with exactly the text; no earlier child matches; none when none matches |
| Plist.Upserted | app.js:501-519 | when the first matching `<key>` at `i` is followed by a `<string>`, only child `i+1` changes, to the value; when it is followed by anything else, a `<string>` with the value is inserted at `i+1` and later children shift by one; when the key is absent, `<key>` and `<string>` are appended; no other child changes |
| Plist.UpsertedLookup | app.js:501-519 | after an upsert, the key reads back as the value |
| Plist.AppendKeepsOthers | app.js:514-518 | appending a new pair keeps every other key's value |
| Plist.ReplaceKeepsOthers | app.js:504-505 | overwriting the `<string>` after the key keeps every other key's value |
| Plist.InsertKeepsOthers | app.js:506-510 | inserting a `<string>` after the key keeps every other key's value |
| Plist.UpsertedKeepsOthers | app.js:501-519 | an upsert leaves every other key's `<string>` value, and the element following every other key (`<true/>`, `<array>`, …), as it was |
| Plist.UpsertedIdempotent | app.js:501-519 | upserting the same key and value twice is the same as once |
| Plist.UpsertedKeyCount | app.js:501-519 | an upsert never duplicates the key: it occurs as often as before, and at least once |
| Plist.PlistDict.constructor | app.js:495 | the dictionary holds the given children |
| Plist.PlistDict.UpsertKey | app.js:501-519 | the loop over the children edits them in place exactly as `Upserted` describes |
| Plist.UpsertAllSetsEach | app.js:497 | after patching with pairs whose keys are distinct, each key reads back as its value |
| Plist.PatchPlist | app.js:492-499 | "Invalid Info.plist XML." on a parse error; "Info.plist missing <dict>." without a dict; otherwise the children with every pair upserted in order |
| Archive.Removed | app.js:293 | JSZip `remove`: a file path drops just that entry; otherwise exactly the entries under the path as a folder go; every entry not starting with the path stays; nothing is added or changed |
| Archive.RemovedFolderIsEmptied | app.js:290-293 | removing a folder path leaves no entry under it |
| Archive.Zip.constructor | app.js:532 | a new archive is empty |
| Archive.Zip.Remove | app.js:293 | the table becomes `Removed` of the old one |
| Archive.Zip.PutFile | app.js:542 | the path now holds the file with the given content and permissions; nothing else changes |
| Archive.Zip.PutFolder | app.js:536 | adds the folder under its slash-terminated name unless that name is already present |
| Archive.Roots | app.js:521-527 | the candidate roots are the first segments ending in ".saver", each with "/" |
| Archive.FindBundleRoot | app.js:521-528 | a root exactly when there is exactly one candidate, and then it is that candidate |
| Archive.Target | app.js:534 | a path under the old root gets the new root in its place with the same rest; others pass through |
| Archive.TargetRoundTrip | app.js:534 | moving from one root to another and back gives the original path |
| Archive.TargetEmptyRoots | app.js:550-557 | with empty roots every path is its own target, as `createInstaller` copies |
| Archive.NewKeyIsTarget | app.js:534-536 | for a slash-named folder or a file, the copied key is the path with the root replaced |
| Archive.TargetApart | app.js:534 | two distinct paths, each under the new root only if under the old one, get distinct targets |
| Archive.SlashedInjective | app.js:530-546 | when folders are slash-named and every path under the new root is also under the old one, no two entries collide on rename |
| Archive.UnderBundleRoot | app.js:521-527 | a path under `<name>.saver/` makes that a candidate root |
| Archive.MovedAbsent | app.js:530-546 | a path missing under the old root is missing under the new one after `rebase`, when folders are slash-named and nothing outside the old root lies under the new one |
| Archive.MovedNothingUnder | app.js:530-546 | a folder with nothing inside under the old root has nothing inside under the new one after `rebase`, under the same conditions |
| Archive.Permissions | app.js:539-541 | the stored bits when present; otherwise 0o755 exactly for non-folder targets under the executable folder, and 0o644 for all others |
| Archive.Moved | app.js:535-542 | folders stay folders; a file keeps its content and gets definite permissions |
| Archive.CopyEntries | app.js:533-544 | the copy's paths are exactly the moved paths; when no two collide, every entry sits moved under its new path |
| Archive.Rebase | app.js:530-546 | with equal roots the same archive comes back; otherwise a fresh copy with the root replaced, whose default executable folder is `<newRoot>Contents/MacOS/` |
| Archive.StripSignatures | app.js:288-294 | the three signature paths are removed in order; none is left; every entry outside them stays; nothing is added or changed |
| Archive.ReplacePayload | app.js:154-159 | both old payloads go, and `payload.mp4` holds the new bytes with mode 0o644; every other entry stays with its value and nothing else is added |
| Installer.InstallerScript | app.js:564-573 | the fixed script text with the name between its head and its tail |
| Installer.ScriptNameRoundTrip | app.js:566 | the name can be read back from the script |
| Installer.InstallerScriptInjective | app.js:564-573 | two scripts are equal exactly when their names are |
| Installer.CreateInstaller | app.js:548-562 | the installer holds every bundle path under its own name, plus `install.command` with the script and mode 0o755 |
| Installer.InstallerKeepsPaths | app.js:550-557 | a copied file, or a folder stored with its "/", keeps its path |
| Installer.InstallerExecutableDefaultNeverApplies | app.js:555 | with a root name ending in ".saver", as the build passes it, no bundle path gets the 0o755 default |
| Installer.RebaseExecutableDefaultApplies | app.js:539-541 | under `rebase`, a file in `<root>Contents/MacOS/` without stored bits does get 0o755 |
| Naming.KeepAllowed | app.js:348 | the kept text has only `[A-Za-z0-9 _.-]` characters, each taken from the input |
| Naming.KeepAllowedAppend | app.js:348 | the filter distributes over concatenation |
| Naming.KeepAllowedChar | app.js:348 | one character is kept exactly when it is in `[A-Za-z0-9 _.-]` |
| Naming.KeepAllowedIdentity | app.js:348 | text made of allowed characters is unchanged |
| Naming.Sanitize | app.js:347-349 | the allowed characters of the input, in order, then trimmed; hence only allowed characters, no '/', and no space at either end |
| Naming.SanitizeKeepsAllowed | app.js:347-349 | every allowed character of the input other than a space survives sanitizing |
| Naming.SanitizeIdempotent | app.js:347-349 | sanitizing twice is sanitizing once |
| Naming.SaverName | app.js:118 | the sanitized name, or "MySaver" when that is empty; never empty and never holds '/' |
| Naming.BundleId | app.js:119 | the trimmed id, or "local.videosaver.<time>" when that is empty; never empty |
| Build.FailureText | app.js:187 | the error's message, or "Build failed." when it is empty; never empty |
| Build.BundleValuesSet | app.js:161 | after the patch, `CFBundleName` reads back as the saver name and `CFBundleIdentifier` as the bundle id |
| Build.UpdateBundle | app.js:152-161 | the new table is exactly the template stripped, with the payload swapped, and, when the property list parses, Info.plist set to the patched dict; otherwise the parser's message is the failure; either way the three signature paths and `payload.mov` are gone, the signature folder is empty unless a file held its name, the payload holds the new bytes, every other template entry stays with its value, and nothing else is added |
| Build.StripAndReplace | app.js:153-159 | the new table is exactly `stripSignatures` followed by the payload swap: no signature path and no `payload.mov` is left, the signature folder is empty unless a file held its name, the payload is the new bytes with mode 0o644, every entry outside the edited paths is kept, and nothing else is added |
| Build.SwappedIsUnsigned | app.js:153-159 | after the strip and the swap no signature path and no `payload.mov` is left, and the signature folder is empty unless a file held its name |
| Build.StrippedIsUnsigned | app.js:153 | after `stripSignatures` none of the three signature paths is left, and nothing is left inside the signature folder unless a file held its name |
| Build.SwapKeepsUnsigned | app.js:154-159 | the payload swap removes `payload.mov` and puts nothing back under the signature paths |
| Build.InfoWritten | app.js:160-161 | storing Info.plist keeps the signature residue and `payload.mov` away, keeps the new payload, and keeps every other entry as the strip and swap left it |
| Build.WriteInfo | app.js:160-161 | the two parse failures leave the archive unchanged; otherwise only Info.plist changes, to the patched dict |
| Build.RebasedEntries | app.js:165 | the payload and Info.plist reach the renamed bundle under the new root, and no signature path, `payload.mov` or signature-folder content comes back there |
| Build.KeptThroughRebase | app.js:165 | entries the edit left alone survive `rebase` at their new path with their moved value |
| Build.EditedInjective | app.js:152-165 | an edited template with a unique root and slash-named folders renames without collisions |
| Build.Package | app.js:163-172 | the installer gets the script for `<name>.saver` with mode 0o755; an unrenamed bundle is returned as is; when the root keeps its name, or is the template's only root with slash-named folders, the renamed bundle holds the payload and patched Info.plist, no signature path and no `payload.mov`, an empty signature folder unless a file held its name, and every untouched template entry moved under `<name>.saver/` |
| Build.OpenTemplate | app.js:110-116 | "Template missing .saver root folder." exactly when the root is not unique; "Info.plist not found in template." exactly when that file is missing; otherwise the unique root |
| Build.Assemble | app.js:150-184 | only a property list that fails to parse fails (with its message); otherwise both downloads are named from the saver name, the installer has the script, and the bar reaches 1; under the same root conditions as `Package`, the bundle holds the new payload and the patched Info.plist, none of the signature residue or `payload.mov`, and the untouched template entries |
| Build.Produce | app.js:146-184 | the engine calls are those of `prepareVideo`; its failure is the build's failure; after its success an unparsable Info.plist gives "Invalid Info.plist XML.", one without `<dict>` gives "Info.plist missing <dict>.", and otherwise the build succeeds with its description and bundle contents as for `Assemble` |
| Build.BuildSaver | app.js:99-191 | template errors fail before any engine call and leave the template untouched; an opened template runs exactly the engine calls of `prepareVideo`; its failure, or an Info.plist parse failure, is the build's failure; errors carry a message, "Build failed." when empty; otherwise success offers `<name>.saver.zip` and `<name>-install.zip` with the script, with the bar at 1; when the root keeps its name or the template's folders are slash-named, the bundle holds the new payload and the patched Info.plist, none of the signature residue or `payload.mov`, and every untouched template entry under `<name>.saver/` |

## Left out

- `sw.js`: service-worker caching and fetch interception are I/O with no core logic.
- UI glue in `app.js` (`wireUI`, `bootstrap`, `setBusy`, `setStatus`, `appendLog`, `clearLog`, `getMode`, `setDownloads`, `clearDownloads`): DOM work. The mode radio value is the `Mode` input. Any value other than `force` or `passthrough` takes the `auto` branch, as the code's final `else` does.
- `createTemplateLoader` and `formatBytes`: network fetching, and floating-point formatting with `Math.log` and `toFixed`.
- `safeProbe`, reading the selected file, and `Date.now`: the probe result, the video bytes and the clock are parameters of the model.
- JSZip internals (`loadAsync`, `generateAsync`, DEFLATE, `entry.async`, implicit parent folders): the archive is a plain map with key deletion and insertion. File data read with `entry.async` is the stored content.
- DOMParser and XMLSerializer: parsing is an input (`ParsedPlist`: malformed, no `<dict>`, or its children). The serialised text is not modelled; the patched children are stored.
- The worker side of ffmpeg (`ensureFFmpeg`, `importScripts`, `handle`, `probe`, the run itself, file-system calls, loggers, and the `Math.min(0.95 / 0.6, ratio)` caps on worker progress): the engine's replies are inputs and only the command lines are modelled.
- Promise and worker concurrency: bridge events and tracker updates are sequential method calls; promise resolution is recorded, not scheduled.
- Ownership transfer of `ArrayBuffer`s: buffers are immutable byte sequences.
- Floating point and NaN: progress values are exact reals.
- The runtime behaviour of the generated bash script: only its text is modelled.
- `toLowerCase` and `/i` matching beyond ASCII letters: lower-casing maps only 'A'–'Z'; non-ASCII characters are kept as they are.
- Archive.CopyEntries: when two entries collide on their new path, the copy's content depends on JSZip's iteration order; the contract then states only the set of paths.
- Archive.Rebase: same as `CopyEntries` for colliding paths.
- Installer.CreateInstaller: same as `CopyEntries` for colliding paths.
- Build.BuildSaver: states the contents of the downloaded bundle only when the root keeps its name or every folder of the template is named with a trailing '/'. JSZip names its folders that way; the model's plain map does not enforce it, and a folder key without the '/' could collide with a file on rename.
- Build.Package, Build.Assemble, Build.Produce: same condition as `BuildSaver` for the bundle contents, stated on the template's entries and root.
- Bridge.WorkerBridge.OnError: the `error` object is reduced to its optional message.
- The log lines that `buildSaver` and `prepareVideo` write through `appendLog` are not modelled; the `notes` list that `prepareVideo` returns is.
