# Voice converter — a verified model of the batch bookkeeping

The voice converter takes a folder of voice-over recordings and converts each
recording into one or more target voices through a remote speech-to-speech
service (voice_converter.py). The remote service does the audio work. The
program's own logic is the bookkeeping around those calls, and that is what
this project models and proves:

- **API key** (`VoiceConverter.__init__`). An explicit non-empty key wins.
  Otherwise the key comes from the environment, and no non-empty key at all
  is an error (`Converter.ResolveApiKey`, `Converter.VoiceConverter.Create`).
- **Voice catalog cache** (`get_voices`). A class field holds the catalog. It
  is fetched only while nothing is cached and is kept once fetched. A failed
  fetch raises and leaves the cache empty, so the next call fetches again.
  A ghost counter records the fetches (`Converter.VoiceConverter.GetVoices`,
  `Converter.GetVoicesStep`, `Converter.GetVoicesRun`).
- **Request parameters** of `convert_voice`: the URL per voice ID, the
  key header, and the three query parameters, with
  `str(remove_background_noise).lower()` giving `true`/`false`.
- **Extension discovery** in `batch_convert`. For each extension in list
  order, the listing's entries ending with it, then those ending with its
  upper-case form (`Discovery.CollectAudioFiles`). Matching is
  case-sensitive. A mixed-case name such as `a.Mp3` is never found. An
  extension that is already upper case is globbed twice.
- **Aggregation** in `batch_convert`. An outer loop runs over the files and
  an inner loop over the voice IDs, with one `convert_voice` call per pair,
  in file-major order. Each pair gets the output name
  `{stem}_{voice_name}_{voice_id}{suffix}`. A file goes on the success list
  only when all its calls succeed. Each failed call adds one line
  `"{name} -> {voice_name}"` (`Batch.ConvertFile`, `Batch.ConvertAll`,
  `Converter.VoiceConverter.BatchConvert`).
- **Voice-ID input** in `main`. The raw line is stripped and split on
  commas. Each piece is stripped, and empty pieces are dropped. The IDs not
  in the catalog are dropped, keeping the typed order. No IDs at all, or
  none left after the catalog check, stops the run (`Cli.ParseVoiceIds`,
  `Cli.ValidateVoiceIds`).
- **`main`** as a whole (`Cli.Run`, specified by the pure `Cli.MainOutcome`).

The imperative parts of the source stay imperative here: `VoiceConverter` is
a class whose `voicesCache` field its methods update, and the discovery and
conversion loops are methods with `for` loops. Each such method is proved
equal to a specification function: `Discovery.Discover`, `Batch.Jobs`,
`Batch.SuccessNames`, `Batch.FailureLines` and `Converter.GetVoicesStep`. The
properties the program promises are then proved as lemmas about those
functions.

What the program does not decide itself is passed in as data:

- the HTTP answer of the catalog fetch, as a `Result` of voices or a
  `FetchError`;
- the outcome of performing one conversion call, as an oracle
  `VoiceCall -> bool` over the complete description of the call (URL,
  headers, parameters, input file, upload name, output file);
- the input folder's listing, as a sequence of entry names;
- whether a folder exists, as a predicate;
- the environment variable and the three typed lines.

The modules:

- `Wrappers` holds `Option` and `Result`.
- `Seqs` holds the two list-building patterns, `FlatMap` (a loop that
  `extend`s a list) and `Filter` (a filtering comprehension), and their
  lemmas.
- `Text` holds `str.strip`, `str.split`, `str.upper`/`lower` and
  `str.endswith`.
- `Paths` holds `PurePath.stem`/`suffix`.
- `Catalog` holds the voice list and the ID→name map.
- `Discovery`, `Batch`, `Converter` and `Cli` hold the parts described
  above.

Discovery is not case-insensitive: each extension is tried as given and in
upper case only, so `a.Mp3` is missed (`Discovery.MixedCaseMissed`).

## Model

| member | source | states |
|---|---|---|
| Text.Strip | voice_converter.py:221-222 | `s.strip()` neither starts nor ends with whitespace and is no longer than `s` |
| Text.StripSlice | voice_converter.py:221-222 | `s.strip()` is a contiguous slice of `s`, and everything cut off on either side is whitespace |
| Text.StripStripped | voice_converter.py:222 | a string that neither starts nor ends with whitespace is left unchanged by strip |
| Text.StripIdempotent | voice_converter.py:222 | stripping twice is stripping once, so `vid.strip()` of an already stripped piece is the piece |
| Text.StripEmptyIff | voice_converter.py:222 | a piece is dropped by `if vid.strip()` exactly when it is all whitespace |
| Text.SplitOn | voice_converter.py:222 | `split(',')` gives at least one piece, no piece holds a comma, and joining the pieces with commas gives back the input |
| Text.SplitAfterPiece | voice_converter.py:222 | splitting `a + "," + b` with `a` comma-free gives `a` followed by the pieces of `b` |
| Text.SplitWhole | voice_converter.py:222 | a comma-free string splits into itself alone |
| Text.SplitJoin | voice_converter.py:222 | splitting the comma-join of comma-free pieces gives back the pieces: split is the inverse of join |
| Text.EndsWith | voice_converter.py:149 | `name.endswith(ext)`: the last `len(ext)` characters of the name are `ext`; this is the `*{ext}` glob test |
| Text.Upper | voice_converter.py:150 | `ext.upper()` has the length of `ext` |
| Text.UpperChars | voice_converter.py:150 | each character of `ext.upper()` is the upper-case form of the character at the same place |
| Text.UpperFixedIff | voice_converter.py:150 | `ext.upper() == ext` exactly when `ext` has no lower-case letter |
| Text.Lower | voice_converter.py:95 | `.lower()` keeps the length |
| Text.LowerChars | voice_converter.py:95 | each character of `.lower()` is the lower-case form of the character at the same place |
| Paths.Suffix | voice_converter.py:174 | `audio_file.suffix`: the name from its last dot on, when that dot is neither the first nor the last character, and empty otherwise (shape proved in `Paths.StemSuffixSplit`) |
| Paths.Stem | voice_converter.py:174 | `audio_file.stem`: the name up to that last dot, or the whole name when there is no suffix |
| Paths.RFind | voice_converter.py:174 | the last position of the character, or -1 when it does not occur |
| Paths.StemSuffixSplit | voice_converter.py:174 | stem followed by suffix is the whole name; a suffix is empty or a dot followed by at least one non-dot character; a name with a suffix has a non-empty stem |
| Paths.SuffixOfDotted | voice_converter.py:174 | a non-empty head followed by an extension like `.mp3` has that extension as suffix and the head as stem |
| Paths.SuffixOfMatch | voice_converter.py:174 | a file globbed by `*{ext}`, longer than `ext`, has `ext` as its suffix and the rest as its stem |
| Catalog.CatalogIds | voice_converter.py:229 | `{v['voice_id'] for v in voices}`: the set of IDs in the catalog |
| Catalog.NameMap | voice_converter.py:161 | `{v['voice_id']: v['name'] for v in voices}`, built left to right (keys and overwriting proved in `Catalog.NameMapKeys` and `Catalog.NameMapLastWins`) |
| Catalog.VoiceName | voice_converter.py:171 | `voice_names.get(voice_id, voice_id)`: the catalog name, or the ID itself when the ID is not in the catalog |
| Catalog.NameMapKeys | voice_converter.py:161 | the `voice_names` dictionary has exactly the catalog's voice IDs as keys |
| Catalog.NameMapLastWins | voice_converter.py:161 | an ID maps to the name of its last entry in the catalog (later duplicates overwrite earlier ones) |
| Catalog.VoiceNameInCatalog | voice_converter.py:161-171 | for an ID in the catalog, `voice_names.get(id, id)` is the name of a catalog voice carrying that ID |
| Discovery.FormatsOrDefault | voice_converter.py:137-138 | `supported_formats`, with `None` replaced by `.mp3 .wav .m4a .flac .aac .ogg` |
| Discovery.Glob | voice_converter.py:149 | `input_path.glob("*" + ext)`: the listing entries ending with `ext`, in listing order |
| Discovery.GlobBothCases | voice_converter.py:149-150 | what one extension adds: its exact-case matches, then the matches of `ext.upper()` |
| Discovery.Discover | voice_converter.py:147-150 | the `audio_files` list: the blocks of `GlobBothCases` for each format, in format order |
| Discovery.GlobMembers | voice_converter.py:149 | `glob("*" + ext)` yields exactly the listing entries ending with `ext`, and no more entries than the listing has |
| Discovery.GlobNone | voice_converter.py:149 | nothing is globbed when no entry ends with the extension |
| Discovery.GlobAppend | voice_converter.py:149 | glob keeps listing order: the matches of a split listing are the matches of each part, in order |
| Discovery.CollectAudioFiles | voice_converter.py:147-150 | the discovery loop builds `Discover(listing, formats)`: per extension, its exact-case matches then its upper-case matches |
| Discovery.GlobBothCasesMembers | voice_converter.py:149-150 | one extension contributes exactly the listing entries ending with it or with its upper-case form |
| Discovery.DiscoverMembers | voice_converter.py:147-150 | a name is discovered if and only if it is in the listing and ends with some format, as given or upper-cased |
| Discovery.DiscoverAppend | voice_converter.py:148-150 | the discovered list is the blocks of the extensions, in the order of the format list |
| Discovery.DiscoverNone | voice_converter.py:147-152 | when no entry matches any format, nothing is discovered (the early-return case) |
| Discovery.DiscoverEmptyListing | voice_converter.py:147-152 | an empty folder discovers nothing, whatever the formats |
| Discovery.MixedCaseMissed | voice_converter.py:148-150 | with the default formats, `a.Mp3` is not discovered: matching is not case-insensitive |
| Discovery.UpperCaseExtensionTwice | voice_converter.py:148-150 | a format with no lower-case letter is globbed twice, so each of its files is listed twice |
| Batch.OutputFilename | voice_converter.py:174 | `f"{stem}_{voice_name}_{voice_id}{suffix}"` for the input name (partners `Batch.OutputKeepsSuffix`, `Batch.OutputFilenameDistinct`) |
| Batch.MakeJob | voice_converter.py:171-182 | the `convert_voice` arguments for one (file, voice) pair: the input path, the voice ID, and the output path `output_path / output_filename` |
| Batch.Jobs | voice_converter.py:167-182 | all calls of a run, file-major: for each file in discovery order, one call per voice ID in order |
| Batch.FileConverted | voice_converter.py:168-183 | `file_success` at the end of the inner loop: every call for the file returned true |
| Batch.SuccessNames | voice_converter.py:189-190 | the `success` list: the files, in discovery order, whose calls all returned true |
| Batch.FailureLine | voice_converter.py:184 | `f"{audio_file.name} -> {voice_name}"` for a call, with the catalog name or the ID |
| Batch.FailureLines | voice_converter.py:178-184 | the `failed` list: one failure line per call that returned false, in call order |
| Batch.ConvertFile | voice_converter.py:168-187 | the inner loop makes the calls for the file, one per voice ID in order; `file_success` is true exactly when every call succeeded; `failed` gets one line per failed call, in call order |
| Batch.ConvertAll | voice_converter.py:163-192 | the two loops make the calls `Jobs(files, voiceIds)`, file-major; `success` is the files all of whose calls succeeded, in discovery order; `failed` is one line per failed call, in call order |
| Batch.FileStep | voice_converter.py:170-183 | one more voice appends its call, and the file stays successful exactly when it was and the new call succeeds |
| Batch.RunStep | voice_converter.py:167-190 | one more file appends its calls and, when all of them succeed, its name to `success` |
| Batch.JobsAppend | voice_converter.py:167-182 | the calls of a split file list are the calls of each part, in order |
| Batch.JobsCount | voice_converter.py:167-182 | F files and V voice IDs make exactly F×V calls |
| Batch.JobsAt | voice_converter.py:167-182 | call number `i*V + j` is the call for file `i` and voice `j` (file-major, voice-minor order) |
| Batch.FailureLinesAppend | voice_converter.py:178-184 | the failure lines of a split call sequence are those of each part, in call order |
| Batch.FailureLinesCount | voice_converter.py:178-184 | `len(failed)` equals the number of calls that returned false |
| Batch.FailureLinesMembers | voice_converter.py:178-184 | a line is in `failed` exactly when some call returned false and the line names that call's file and voice |
| Batch.FailedCallRecorded | voice_converter.py:178-184 | every false-returning call leaves its line in `failed` |
| Batch.FileFailuresEmptyIff | voice_converter.py:168-184 | a file's calls add no failure line exactly when the file counts as converted |
| Batch.FailureLinesByFile | voice_converter.py:167-184 | `failed` is grouped by file: the lines of each file in turn, in discovery order |
| Batch.SuccessAppend | voice_converter.py:189-190 | the success list keeps discovery order: the successes of a split file list are those of each part |
| Batch.SuccessMembers | voice_converter.py:168-190 | a name is in `success` exactly when it is a discovered file all of whose conversions returned true |
| Batch.NoVoicesAllSucceed | voice_converter.py:168-190 | with no voice IDs no call is made and every file is a success |
| Batch.AllSucceededIffNoFailures | voice_converter.py:167-190 | every file is in `success` exactly when `failed` is empty |
| Batch.FailedPairRecorded | voice_converter.py:178-190 | a failed (file, voice) pair puts `"{name} -> {voice_name}"` into `failed` and keeps the file out of `success` |
| Batch.OutputFilenameDistinct | voice_converter.py:174 | for one file and one display name, different voice IDs get different output names |
| Batch.OutputFilenameCollision | voice_converter.py:174 | different (voice name, voice ID) pairs can give the same output name when names contain `_` |
| Batch.OutputKeepsSuffix | voice_converter.py:174 | an output name keeps the input's suffix, and its stem is `{stem}_{voice_name}_{voice_id}` |
| Converter.Headers | voice_converter.py:32-34 | the header map holding only `xi-api-key` set to the key |
| Converter.ConversionUrl | voice_converter.py:90 | `f"{self.base_url}/speech-to-speech/{voice_id}"` |
| Converter.CallFor | voice_converter.py:178-182 | the request `batch_convert` makes for a job, from the converter's base URL and headers, with the default model, format and `remove_background_noise=False` |
| Converter.ConvertVoice | voice_converter.py:178-182 | what `convert_voice` returns for a job: the outcome of performing its request |
| Converter.BatchOutcome | voice_converter.py:152-192 | the returned dictionary once the catalog is available: empty lists with no files, else `success` and `failed` of the run |
| Converter.ResolveApiKey | voice_converter.py:27-29 | a key is found exactly when the explicit or the environment key is non-empty; the explicit one takes precedence; a found key is non-empty |
| Converter.BoolParam | voice_converter.py:95 | `str(b).lower()` is `true` or `false` |
| Converter.RequestParams | voice_converter.py:92-96 | the query has exactly the keys `model_id`, `output_format` and `remove_background_noise`, with the given values |
| Converter.ConversionUrlInjective | voice_converter.py:90 | different voice IDs are posted to different URLs |
| Converter.CallForInjective | voice_converter.py:90-104 | for one base URL and header map, different jobs never produce the same request, so an oracle over requests answers per job |
| Converter.GetVoicesStep | voice_converter.py:46-51 | it fetches exactly when nothing is cached; a cached list is returned unchanged; a fetched list is cached; a failed fetch raises and leaves the cache empty |
| Converter.GetVoicesRun | voice_converter.py:46-51 | a run of calls yields one answer per call and fetches at most once per call |
| Converter.CachedRunFetchesNothing | voice_converter.py:46-51 | once a list is cached, every later call returns that list and none fetches |
| Converter.FirstFetchIsLast | voice_converter.py:46-51 | when the first fetch succeeds, there is exactly one fetch and every call returns its list |
| Converter.FailedFetchesRetry | voice_converter.py:46-49 | while fetches fail, every call fetches again and raises, and nothing is cached |
| Converter.BatchOutcomeCounts | voice_converter.py:160-192 | with files discovered: F×V calls, one failure line per failed call, and the success list holds exactly the fully converted files |
| Converter.VoiceConverter.constructor | voice_converter.py:30-37 | the converter holds the key, the base URL, the key header and an empty cache |
| Converter.VoiceConverter.Create | voice_converter.py:20-37 | construction fails exactly when no key resolves; otherwise the new converter holds the resolved key, the base URL, the header and an empty cache |
| Converter.VoiceConverter.GetVoices | voice_converter.py:46-51 | the method returns and caches what `GetVoicesStep` prescribes and counts a fetch exactly when it made one |
| Converter.VoiceConverter.BatchConvert | voice_converter.py:137-192 | no discovered files: empty result, no call, no fetch. Otherwise: the catalog is read through the cache; a failed fetch raises before any call; else the calls are `Jobs(files, voiceIds)` and the result is the success and failure lists |
| Cli.StripBlock | voice_converter.py:222 | one piece's contribution: its strip, or nothing when the strip is empty |
| Cli.ParseVoiceIds | voice_converter.py:221-222 | every parsed ID is non-empty, stripped and free of commas |
| Cli.ParseVoiceIdsMembers | voice_converter.py:221-222 | an ID is parsed exactly when it is the non-empty strip of some comma-separated piece of the stripped line |
| Cli.StripBlockClean | voice_converter.py:222 | pieces already non-empty and stripped all survive the strip-and-drop step unchanged |
| Cli.ParseJoin | voice_converter.py:221-222 | parsing the comma-join of clean IDs gives back those IDs in order (round trip) |
| Cli.InvalidIds | voice_converter.py:230 | `[vid for vid in voice_ids if vid not in available_voices]` |
| Cli.KeepAvailable | voice_converter.py:233 | `[vid for vid in voice_ids if vid in available_voices]`, in typed order |
| Cli.CatalogSplit | voice_converter.py:229-233 | the kept IDs are exactly the typed IDs in the catalog; the invalid ones are exactly the others; nothing is added |
| Cli.KeepAvailableAll | voice_converter.py:231-233 | when every ID is in the catalog, filtering keeps the list as typed |
| Cli.KeepAvailableAppend | voice_converter.py:233 | filtering keeps the typed order: a split list filters part by part |
| Cli.KeptIdsValid | voice_converter.py:222-233 | the kept IDs are clean and all in the catalog |
| Cli.ValidateVoiceIds | voice_converter.py:224-236 | no IDs at all is the first error; IDs none of which is in the catalog is the second; otherwise the result is the catalog IDs in typed order, and it is non-empty |
| Cli.MainOutcome | voice_converter.py:195-244 | how `main` ends: no key; the catalog fetch of `list_voices` failing; a missing input folder; no IDs or no valid IDs; or a completed batch over the valid IDs with the default formats |
| Cli.Run | voice_converter.py:195-244 | `main` ends as `MainOutcome` prescribes and fetches the catalog exactly once when a key is present, none otherwise |
| Cli.MainNoKeyIff | voice_converter.py:201-206 | `main` stops for want of a key exactly when the environment holds no non-empty key |
| Cli.MainTargets | voice_converter.py:221-244 | a completed run had the catalog and converts to a non-empty list of clean catalog IDs, in the typed order |

## Left out

- HTTP, JSON and audio I/O (`requests.get`/`post`, `response.json()`, reading the input and writing the output file) are not modelled. The catalog fetch is a `Result` parameter. Performing a conversion is an oracle over the call's description.
- The oracle is a function of the request: two identical requests get the same answer. `Converter.CallForInjective` shows that distinct jobs give distinct requests. A retried identical request (for a file discovered twice) cannot get a different answer in this model.
- `Path.glob` is modelled as a case-sensitive suffix test over an abstract listing. Listing order, directories versus files, hidden-file rules and case-insensitive file systems are left out.
- `Path.mkdir` for the output folder is left out. A failing `mkdir` (the path is an existing file, or permission is denied) raises before discovery, so `batch_convert` returns nothing and `main` crashes; this exception path is not modelled, and `Converter.VoiceConverter.BatchConvert` always returns a result or a catalog error.
- `str(path)` rendering is left out. A path is a (folder, name) pair, and `os.path.basename` of the input is its name.
- Paths.Suffix: follows the `PurePath.suffix` rule of Python 3.13 and earlier, where a trailing dot is no suffix (`Suffix("a.") == ""`); Python 3.14 gives `"."` there.
- Paths.Stem: follows the same rule of Python 3.13 and earlier (`Stem("a.") == "a."`; Python 3.14 gives `"a"`). With the default formats no discovered name ends in a dot.
- Text.Upper: only the ASCII letters change case; Python's full Unicode case mapping is left out.
- Text.Lower: only the ASCII letters change case, as for `Text.Upper`.
- `time.sleep`, the `tqdm` progress bar and every `print`, including the `list_voices` formatting and the warning that lists the invalid IDs, are left out. `Cli.InvalidIds` computes the IDs that the warning would name.
- `main` crashes when `list_voices` raises on a failed fetch. This uncaught exception is modelled as the `CatalogError` outcome.
- `main`'s `input()` and `os.path.exists` become parameters: the three raw lines and a folder-existence predicate.
- `Cli.Run` calls `batch_convert` with the default formats, as `main` does. Other formats are covered by `Converter.VoiceConverter.BatchConvert`.
- streamlit_app.py (the web front end) and run_streamlit.py (a launcher) are not part of this model.
- The generic `Seqs` lemmas and the arithmetic helpers `Batch.MulStep`/`Batch.MulMonotone` are proof tools and have no row above.
