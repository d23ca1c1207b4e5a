# MasterTranscriber core, modelled in Dafny

MasterTranscriber records system audio and a microphone and cuts the recording into chunks. It sends the chunks to speech-to-text and builds transcripts, translations, summary prompts and an export from the results. Under the audio capture, HTTP and WPF plumbing sits deterministic logic: ordering, numbering, size thresholds and text layout. This project models that logic as pure functions over immutable datatypes and proves what the application promises about it.

Time, file sizes, sample reads and the answers of remote services are parameters. Each `DateTime.Now` read is a separate integer millisecond parameter. A file system is a map from path to length. A remote service is the answer it gives to one request.

Modules, all in this directory:

- `wrappers.dfy`: `Option` and `Result`.
- `text.dfy`: string helpers. These are `ToLower`/`ToUpper`, `int.ToString`, the `D2` format, `Split(char)` and `string.Join`.
- `netpath.dfy`: the parts of `System.IO.Path` used (`GetFileName`, `GetDirectoryName`, `GetExtension`, `GetFileNameWithoutExtension`, `Combine`).
- `timefmt.dfy`: `FormatDuration` of the long-file processor and `FormatTimeSpan` of the real-time transcriber and main window, with a parser that reads them back.
- `transcript.dfy`: transcript segments, the stable `OrderBy(StartTime)` sort, and the `[start - end]` / body / blank-line rendering.
- `realtime.dfy`: `RealTimeTranscriber`, covering:
  - the session record and the `StartRecording` reset;
  - the chunk rotator of `MixAndWrite` over any run of a monotone clock;
  - the two end-of-session finalisers, the announcing of queued chunks in queue order, and the segment store with its translation overlay;
  - chunk-file naming and clean-up.
- `chunked.dfy`: `ChunkedProcessor`, covering:
  - the `needsChunking` decision and the chunk boundaries;
  - the byte-copy loop;
  - the chunk-transcript join and the per-chunk / combined summary calls.

  The chunk files' directory and base name form a `ChunkNaming`. `TranscribeFile` takes them from the source path.
- `recorder.dfy`: `Recorder`, covering:
  - the manual mixing kernel of `MixStreams` over `real` samples;
  - buffer sizing, the real-time throttle and the counters;
  - the mono-to-stereo widening and the byte accounting of system-only mode.
- `settings.dfy`: the settings dialog. This covers the keystroke filter, validation, the interval clamp, the language default, and what Save stores.
- `converter.dfy`: `AudioConverter`, covering:
  - the extension sets and the format description;
  - the `_converted.wav` output name and the decoder dispatch;
  - the import flow of the main window that uses them.
- `deepl.dfy`: `DeepLTranslator`. This covers one request's outcome and the `"\n\n"` paragraph split/translate/join of the batch.
- `prompts.dfy`: the three prompt builders that `Summarizer` and `OpenRouterHandler` share. Their templates are identical in the two classes, so they are defined once. The module also covers `SetContext`.
- `summarizer.dfy`: the choice between Ollama and OpenRouter, the missing-handler errors, and the outcome of each service's answer.
- `mainview.dfy`: the main window's pure helpers. These are the language names, the live transcript view with its `[Translating...]` fallback, the completion of a chunk's transcription (its segment and the deletion of its files) in any order, and the export text.

Three behaviours of the code that a reader might not expect:

- The mixer halves a lone source rather than passing it through (Recorder.cs:174-176, `Recorder.LoneSourceIsHalved`).
- `StartRecording` reads the clock twice (RealTimeTranscriber.cs:45-46), so the last-chunk time starts no earlier than the recording start, not equal to it.
- `StartRecording` clears the segments and translations but not the chunks still waiting in the queue (RealTimeTranscriber.cs:39-54).

## Model

| member | source | states |
|---|---|---|
| RealTime.StartRecording | TranscribeMeetingUI/RealTimeTranscriber.cs:39-54 | A new session has chunk counter 0, no segments and no translations. Its last-chunk time is no earlier than its start. The chunks still queued are kept. |
| RealTime.RotatedChunk | TranscribeMeetingUI/RealTimeTranscriber.cs:160-176 | A rotated chunk carries the current counter and that counter's chunk file. It ends at the elapsed time and lasts exactly one chunk duration. |
| RealTime.MixStep | TranscribeMeetingUI/RealTimeTranscriber.cs:150-182 | A pass rotates only when samples were read and a full chunk duration has passed since the last rotation. Rotating enqueues the current chunk, advances the counter and resets the last-chunk time; otherwise the session is unchanged. |
| RealTime.MixRunRotates | TranscribeMeetingUI/RealTimeTranscriber.cs:143-186 | Over any run under a monotone clock, the queue only grows. The new chunks are numbered consecutively from the counter, one per counter step, each in its own file. Each lasts one chunk duration and none overlaps its predecessor. |
| RealTime.RotatedStartsNonNegative | TranscribeMeetingUI/RealTimeTranscriber.cs:160-176 | From a freshly started session, every chunk the mixing loop enqueues starts at a non-negative time. |
| RealTime.FinaliseMix | TranscribeMeetingUI/RealTimeTranscriber.cs:192-209 | After the loop, the last chunk is queued only when its file exists and exceeds 1000 bytes, and it ends at the elapsed time of one clock read. It starts at 0 when no rotation happened. Otherwise it lasts as long as the time since the last rotation measured by a second, later clock read, so it starts earlier than the last rotation by the gap between the two reads. |
| RealTime.FinaliseStop | TranscribeMeetingUI/RealTimeTranscriber.cs:347-381 | On stop, a chunk above 100000 bytes is queued from the last rotation to the stop time. A smaller existing chunk file is deleted and nothing else on disk changes. |
| RealTime.ProcessChunks | TranscribeMeetingUI/RealTimeTranscriber.cs:228-281 | Every queued chunk is announced in enqueue order and the queue is emptied; nothing else in the session changes, because the handler only starts a transcription. A stop during the 2-second start delay ends the task before any chunk is dequeued, so nothing is announced and the queue is kept. |
| RealTime.AddTranscriptSegment | TranscribeMeetingUI/RealTimeTranscriber.cs:283-304 | The segment is appended and nothing else changes. A translation is requested exactly when a translator is configured. |
| RealTime.RecordTranslation | TranscribeMeetingUI/RealTimeTranscriber.cs:306-316 | The translation is stored under its chunk number and every other chunk's translation is kept. |
| RealTime.GetTranslatedSegment | TranscribeMeetingUI/RealTimeTranscriber.cs:452-459 | Returns the stored translation, or the empty text when there is none. |
| RealTime.TranscriptsIgnoreArrivalOrder | TranscribeMeetingUI/RealTimeTranscriber.cs:437-450 | Both transcripts depend on arrival order only among segments with equal start times. |
| RealTime.TranscriptsIgnorePermutation | TranscribeMeetingUI/RealTimeTranscriber.cs:437-450 | With distinct start times, any arrival order of the same segments gives the same transcripts. |
| RealTime.FullTranscriptGrowsAtEnd | TranscribeMeetingUI/RealTimeTranscriber.cs:437-450 | A segment starting no earlier than the others adds exactly its own block at the end of the full transcript. |
| RealTime.TranslationOverlayOnlyReplacesBodies | TranscribeMeetingUI/RealTimeTranscriber.cs:466-488 | The translated transcript differs from the full one only in segment bodies. With every translation equal to its own text, the two are identical. |
| RealTime.UnusedTranslationInvisible | TranscribeMeetingUI/RealTimeTranscriber.cs:466-488 | Storing a translation for a chunk number no segment carries leaves the translated transcript unchanged. |
| RealTime.ChunkFileName | TranscribeMeetingUI/RealTimeTranscriber.cs:506-509 | Chunk file n is named `<base>_rt_chunk_<n>.wav` inside the output directory. |
| RealTime.ChunkPathInjective | TranscribeMeetingUI/RealTimeTranscriber.cs:506-509 | Distinct chunk numbers name distinct chunk files. |
| RealTime.ChunkFilesAreNotTheRecording | TranscribeMeetingUI/RealTimeTranscriber.cs:490-509 | No chunk file or its `.txt` companion is the full recording. |
| RealTime.CleanupChunkFiles | TranscribeMeetingUI/RealTimeTranscriber.cs:490-504 | Exactly the chunk files 0..counter and their companions are removed. Every other file keeps its size. |
| RealTime.CleanupKeepsRecording | TranscribeMeetingUI/RealTimeTranscriber.cs:490-504 | Clean-up never deletes the full recording. |
| RealTime.GetFullTranscript | TranscribeMeetingUI/RealTimeTranscriber.cs:437-450 | The segments sorted by start time, each rendered as header, text and blank line. Its properties are stated by `TranscriptsIgnoreArrivalOrder`, `TranscriptsIgnorePermutation` and `FullTranscriptGrowsAtEnd`. |
| RealTime.GetTranslatedTranscript | TranscribeMeetingUI/RealTimeTranscriber.cs:466-488 | The same layout with each segment's stored translation, or its text followed by ` [Translation pending...]`. Its properties are stated by `TranslationOverlayOnlyReplacesBodies` and `UnusedTranslationInvisible`. |
| RealTime.ChunkPath | TranscribeMeetingUI/RealTimeTranscriber.cs:506-509 | The path of chunk file n. `ChunkFileName` and `ChunkPathInjective` state its name, directory and injectivity. |
| RealTime.MainFilePath | TranscribeMeetingUI/RealTimeTranscriber.cs:426-434 | The path of the full recording. `MainFileIsRecordingFile` and `ChunkFilesAreNotTheRecording` relate it to the path recording started with and to the chunk files. |
| RealTime.MainFileIsRecordingFile | TranscribeMeetingUI/RealTimeTranscriber.cs:426-434 | The path returned on stop is the `.wav` path recording was started with. |
| Transcript.SortByStart | TranscribeMeetingUI/RealTimeTranscriber.cs:439 | The sorted segments are in ascending start order and are a permutation of the input. |
| Transcript.SortIsStable | TranscribeMeetingUI/RealTimeTranscriber.cs:439 | Segments with equal start times keep their original relative order. |
| Transcript.SortDependsOnlyOnGroups | TranscribeMeetingUI/RealTimeTranscriber.cs:439 | Inputs that agree on the order within every start-time group sort identically. |
| Transcript.SortIgnoresArrivalOrder | TranscribeMeetingUI/RealTimeTranscriber.cs:439 | With distinct start times, the sorted order depends only on which segments are present. |
| Transcript.SortOfSorted | TranscribeMeetingUI/RealTimeTranscriber.cs:439 | Segments already in start order are left as they are. |
| Transcript.RenderAppendLatest | TranscribeMeetingUI/RealTimeTranscriber.cs:441-447 | Rendering a latest-starting segment adds its block (header, body, blank line) at the end. |
| Transcript.RenderBodiesAgree | TranscribeMeetingUI/MainWindow.xaml.cs:501-506 | Two body choices that agree on every segment render the same text. |
| Transcript.HeaderRoundTrip | TranscribeMeetingUI/RealTimeTranscriber.cs:443 | A segment header parses back to the start and end times of day to the second; only whole days and sub-second parts are lost. |
| TimeFormat.FormatDuration | TranscribeMeetingUI/ChunkedProcessor.cs:189-199 | `h:mm:ss` from one hour on, `m:ss` below; `FormatDurationRoundTrip` proves it parses back to the seconds. |
| TimeFormat.FormatTimeSpan | TranscribeMeetingUI/RealTimeTranscriber.cs:511-516 | The same layout over the `Hours`, `Minutes` and `Seconds` components; `TimeSpanIsDurationModDay` relates it to `FormatDuration`. |
| TimeFormat.DurationParts | TranscribeMeetingUI/ChunkedProcessor.cs:189-193 | The parts recompose the total as `h*3600+m*60+s` with minutes and seconds below 60. |
| TimeFormat.RenderClockRoundTrip | TranscribeMeetingUI/ChunkedProcessor.cs:195-198 | The rendering of non-negative parts parses back to `h*3600+m*60+s`. It has three fields exactly when the hours are positive. |
| TimeFormat.FormatDurationRoundTrip | TranscribeMeetingUI/ChunkedProcessor.cs:189-199 | `FormatDuration` is undone by parsing the clock text, and it uses `h:mm:ss` exactly from one hour on. |
| TimeFormat.TimeSpanIsDurationModDay | TranscribeMeetingUI/RealTimeTranscriber.cs:511-516 | `FormatTimeSpan` of a non-negative span is `FormatDuration` of its whole seconds modulo a day, because the hours component wraps at 24. The main window's copy is identical. |
| Text.Pad2 | TranscribeMeetingUI/ChunkedProcessor.cs:196-198 | The `D2` format of a non-negative number is at least two digits and reads back as the number. Below 100 it is exactly two digits. |
| NetPath.StemAndExtension | TranscribeMeetingUI/RealTimeTranscriber.cs:53-54 | A path `dir\stem.ext` has extension `.ext` and stem `stem`. |
| Chunked.ChunkCount | TranscribeMeetingUI/ChunkedProcessor.cs:144 | `Math.Ceiling(total / d)` in exact arithmetic; `ChunkCountIsCeiling` and `ChunkCountAtLeastTwo` state what it is. |
| Chunked.ChunkCountIsCeiling | TranscribeMeetingUI/ChunkedProcessor.cs:144 | For a non-negative total, the count is the ceiling of total/d: `(c-1)*d < total <= c*d`. |
| Chunked.SplitPlan | TranscribeMeetingUI/ChunkedProcessor.cs:143-182 | Chunk i (from 0) spans `i*d` to `min((i+1)*d, total)`, is numbered i+1, and is written to `<stem>_chunk_<i+1>.wav`. |
| Chunked.SplitPlanTiles | TranscribeMeetingUI/ChunkedProcessor.cs:148-152 | The chunks tile the file: the first starts at 0 and each starts where its predecessor ended. The last ends at the total, and each lasts more than 0 and at most d seconds. |
| Chunked.ChunkCountAtLeastTwo | TranscribeMeetingUI/ChunkedProcessor.cs:143-144 | A file that needs chunking is cut into at least two chunks; a shorter one into exactly one. |
| Chunked.CopyChunk | TranscribeMeetingUI/ChunkedProcessor.cs:161-173 | The copy loop never writes more than requested. Each read asks for `min(buffer, remaining)`. The loop stops when everything is written or a read returns 0. |
| Chunked.TranscribeAudio | TranscribeMeetingUI/ChunkedProcessor.cs:10-70 | Files up to 600 s are transcribed in one call with count 1, failing with that call's error. A longer file succeeds exactly when every chunk's transcription does, with one result per chunk in plan order joined by a line of 80 `=` between blank lines, and leaves no chunk file. Otherwise it fails with the error of the first failing chunk and leaves that chunk's file and every later one. |
| Chunked.FirstFailure | TranscribeMeetingUI/ChunkedProcessor.cs:42-59 | The index where a loop that stops at the first exception stops: every earlier call succeeded, and the call there failed if it is in range. |
| Chunked.ChunkLoop | TranscribeMeetingUI/ChunkedProcessor.cs:42-59 | The loop succeeds exactly when no chunk's transcription fails, with one result per chunk holding its number, time labels, transcript and an empty summary. Otherwise it ends with the first failing chunk's error. The files left are those of the failing chunk and the chunks after it. |
| Chunked.ChunkedSuccessNeedsEveryChunk | TranscribeMeetingUI/ChunkedProcessor.cs:42-59 | In terms of the chunk files: a long file's transcription succeeds exactly when the transcription of every `<stem>_chunk_<i>.wav` succeeds, and then no chunk file is left. |
| Chunked.ChunkFailureLeavesLaterFiles | TranscribeMeetingUI/ChunkedProcessor.cs:42-59 | When chunk k is the first to fail, the long file's transcription fails with k's error and leaves exactly the chunk files k, k+1, … up to the last, in order. |
| Chunked.ChunkTranscriptsInOrder | TranscribeMeetingUI/ChunkedProcessor.cs:42-55 | A chunked transcription without error holds one result per chunk, numbered from 1 in order. Each has an empty summary and the transcript of that chunk's own file. |
| Chunked.ChunkLabelsReadBack | TranscribeMeetingUI/ChunkedProcessor.cs:48-55 | In a chunked transcription without error, each chunk's time labels parse back to its boundaries in seconds. |
| Chunked.SummarizeTranscript | TranscribeMeetingUI/ChunkedProcessor.cs:73-103 | A single call on the whole transcript is made for one chunk or no chunk results, and its outcome is the summary. Otherwise the chunks are summarised one by one in order, each summary written into its chunk result as it arrives. The first failing chunk summary ends it with that error: the earlier chunks keep their new summaries, the later ones are untouched, and no combined call is made. Without a failure, one call is made on the `Segment n (start - end):` blocks joined by a blank line, with the chunk total, and its outcome is the summary. |
| Chunked.SummaryLoop | TranscribeMeetingUI/ChunkedProcessor.cs:86-92 | The per-chunk loop calls the summariser on each chunk's transcript and number up to and including the first failure. The chunks before it get their own summaries and nothing else changes. The loop reports that failure's error, or none. |
| Chunked.LongFilesSummarisedPerChunk | TranscribeMeetingUI/ChunkedProcessor.cs:106-122 | End to end, a file transcribed without error is summarised per chunk exactly when it needs chunking, with chunk numbers 1, 2, … in order. |
| Recorder.StartRecording | TranscribeMeetingUI/Recorder.cs:22-30 | The three counters are zeroed whatever they held. |
| Recorder.BufferSamples | TranscribeMeetingUI/Recorder.cs:138 | The buffer holds the samples of 100 ms, i.e. rate·channels/10 rounded down. |
| Recorder.MonoToStereo | TranscribeMeetingUI/Recorder.cs:132-136 | Widening doubles the length and sends each microphone sample to both channels. |
| Recorder.MicStream | TranscribeMeetingUI/Recorder.cs:131-135 | The microphone stream is widened to stereo exactly when the channel counts differ and the microphone is mono: it then has twice the samples and its left channel is the microphone signal. Otherwise it is passed on unchanged. |
| Recorder.MonoToStereoRoundTrip | TranscribeMeetingUI/Recorder.cs:132-136 | One channel of the widened stream gives the microphone signal back. |
| Recorder.MixBuffers | TranscribeMeetingUI/Recorder.cs:165-177 | The mix has as many samples as the longer read. Each sample is `(s+m)*0.5`, with a missing sample taken as silence. |
| Recorder.MixIsSymmetric | TranscribeMeetingUI/Recorder.cs:172-177 | Swapping the two sources does not change the mix. |
| Recorder.LoneSourceIsHalved | TranscribeMeetingUI/Recorder.cs:174-176 | A source mixed against an empty read comes out at half level; it is not passed through. |
| Recorder.MixOfEqualSidesIsIdentity | TranscribeMeetingUI/Recorder.cs:176 | The same signal on both sides comes out unchanged. |
| Recorder.MixStaysInRange | TranscribeMeetingUI/Recorder.cs:176 | Inputs in [-1, 1] give output in [-1, 1]: averaging never clips. |
| Recorder.MixIteration | TranscribeMeetingUI/Recorder.cs:153-193 | A pass writes only when behind real time and one buffer holds two bytes per buffer sample. Writing advances the samples written by the longer read, four bytes per sample, never beyond the byte buffer. Otherwise nothing changes. |
| Recorder.MixLoopAccounting | TranscribeMeetingUI/Recorder.cs:150-211 | Over any run with the writer open, samples written only grow. Bytes are four per sample, and the loop never gets more than one buffer ahead of real time. |
| Recorder.OnDataAvailable | TranscribeMeetingUI/Recorder.cs:95-112 | Every callback is counted. Its bytes are added only while recording with the writer open. |
| Recorder.SystemOnlyAccounting | TranscribeMeetingUI/Recorder.cs:95-105 | After a start, the call count is the number of callbacks and the byte count is the sum of bytes delivered while recording. |
| Settings.TrailingNewlinePassesFilter | TranscribeMeetingUI/SettingsWindow.xaml.cs:117-120 | The filter as written accepts `"5\n"`, which is not numeric. |
| Settings.FiltersAgreeWithoutTrailingNewline | TranscribeMeetingUI/SettingsWindow.xaml.cs:117-120 | The as-written and intended filters differ only on text ending in a line feed. |
| Settings.NumericTextParses | TranscribeMeetingUI/SettingsWindow.xaml.cs:112-120 | Text the intended filter accepts parses with `int.TryParse` as its own digits, whenever the value fits in 32 bits. |
| Settings.TryParseInt | TranscribeMeetingUI/SettingsWindow.xaml.cs:216 | A parsed value lies in the 32-bit range. |
| Settings.ParseIntToString | TranscribeMeetingUI/SettingsWindow.xaml.cs:216 | `int.TryParse` reads back every 32-bit value that `int.ToString` writes. |
| Settings.CheckForm | TranscribeMeetingUI/SettingsWindow.xaml.cs:164-224 | A form passes exactly when every provider requirement and the 5..300 interval hold. Each of the six messages is given exactly when its check is the first that fails: the Whisper path, the Whisper model, the Azure key, the OpenRouter key, the DeepL key, then the interval. |
| Settings.ValidateSettings | TranscribeMeetingUI/SettingsWindow.xaml.cs:164-224 | As written, the provider checks use the providers saved before the dialog opened. |
| Settings.ValidateSelection | TranscribeMeetingUI/SettingsWindow.xaml.cs:164-224 | The corrected validation checks the providers selected on the form. |
| Settings.ClampInterval | TranscribeMeetingUI/SettingsWindow.xaml.cs:150 | The result lies in [5, 300], equals the input inside that range, and equals the nearer bound outside it. |
| Settings.Apply | TranscribeMeetingUI/SettingsWindow.xaml.cs:128-155 | The stored settings take the form's provider choices. The language defaults to `EN-US`. A parsable interval is clamped and an unparsable one keeps the old value. |
| Settings.Save | TranscribeMeetingUI/SettingsWindow.xaml.cs:122-162 | Settings are stored exactly when validation passes, and what is stored is the form. |
| Settings.SavedIntervalIsTyped | TranscribeMeetingUI/SettingsWindow.xaml.cs:148-151 | On a validated form the clamp is the identity: the stored interval is the one typed. |
| Settings.SaveStoresUnusableSettings | TranscribeMeetingUI/SettingsWindow.xaml.cs:167-191 | As written, switching from Azure to local with empty Whisper paths stores settings that cannot run. The corrected Save refuses them. |
| Settings.SaveSelection | TranscribeMeetingUI/SettingsWindow.xaml.cs:122-162 | The corrected Save stores the form exactly when the form's own selection validates. |
| Settings.SaveSelectionIsUsable | TranscribeMeetingUI/SettingsWindow.xaml.cs:125-151 | The corrected Save stores only usable settings, and stores every form whose settings would be usable. |
| Converter.FormatOf | TranscribeMeetingUI/AudioConverter.cs:113-118 | An extension names a format exactly when it equals that format's extension; otherwise it is unknown. |
| Converter.VideoFilesAreSupported | TranscribeMeetingUI/AudioConverter.cs:106-118 | Every video file is also a supported format. |
| Converter.GetFormatDescription | TranscribeMeetingUI/AudioConverter.cs:120-127 | A video gets the fixed video text. Any other file gets its upper-cased extension without the dot, then ` audio file`. |
| Converter.ClassificationOfNamedFile | TranscribeMeetingUI/AudioConverter.cs:113-127 | For `stem.ext`, the description names `EXT`, and the classification ignores the case of the extension. This holds under the invariant culture; under a Turkish culture `x.AVI` lower-cases to `.avı` and is unknown. |
| Converter.ConvertedPathName | TranscribeMeetingUI/AudioConverter.cs:15-18 | The output is `<directory>\<stem>_converted.wav`. |
| Converter.ConvertedPathOfNamedFile | TranscribeMeetingUI/AudioConverter.cs:15-18 | `dir\stem.ext` converts to `dir\stem_converted.wav`. |
| Converter.ConvertedPathIsWav | TranscribeMeetingUI/AudioConverter.cs:15-18 | Whatever the input, the converted file is classified as WAV. |
| Converter.ConvertedPathStaysInDirectory | TranscribeMeetingUI/AudioConverter.cs:15-18 | The converted file lies in the input's directory. |
| Converter.ConvertedPathIsNotInput | TranscribeMeetingUI/AudioConverter.cs:15-18 | The converted file is never the input file itself. |
| Converter.RouteOf | TranscribeMeetingUI/AudioConverter.cs:27-51 | `.wav` is copied and `.mp3` decoded as MP3. The six Media Foundation formats go to Media Foundation, and every other format has no case. |
| Converter.ConvertToWav | TranscribeMeetingUI/AudioConverter.cs:10-62 | Conversion succeeds exactly for WAV, MP3 and the Media Foundation formats, with the converted path. Otherwise it fails with the wrapped not-supported message. |
| Converter.SupportedButNotConvertible | TranscribeMeetingUI/AudioConverter.cs:27-51 | A file is accepted by the format check and rejected by the converter exactly when it is `.avi`, `.mov`, `.mkv`, `.wmv` or `.flv`. |
| Converter.ImportWith | TranscribeMeetingUI/MainWindow.xaml.cs:292-339 | A file is rejected exactly when it is not a supported format. A supported WAV goes to transcription as it is. Any other supported file goes as the converted path when conversion succeeds, and otherwise fails with `Failed to import file: ` and the converter's message. |
| Converter.ImportOfVideoFails | TranscribeMeetingUI/MainWindow.xaml.cs:292-339 | Importing any of those five formats passes the check and then fails with the converter's message. |
| Converter.AviImportFails | TranscribeMeetingUI/MainWindow.xaml.cs:292-339 | Any `dir\stem.avi` passes the check and its import fails. |
| Converter.CorrectedRouteOf | TranscribeMeetingUI/AudioConverter.cs:27-51 | The corrected dispatch has a decoder for exactly the supported formats. It sends the five video containers to Media Foundation and is otherwise unchanged. |
| Converter.ConvertToWavCorrected | TranscribeMeetingUI/AudioConverter.cs:27-51 | Corrected conversion succeeds exactly for supported formats, with the converted path. |
| Converter.CorrectionOnlyAddsVideo | TranscribeMeetingUI/AudioConverter.cs:27-51 | The two dispatches agree on all but the five video containers. Every video goes to Media Foundation. |
| Converter.ImportCorrectedProcessesEverySupportedFile | TranscribeMeetingUI/MainWindow.xaml.cs:324-333 | With the corrected dispatch, a file reaches transcription exactly when it is supported. A non-WAV file arrives as its converted WAV. |
| DeepL.TranslateWith | TranscribeMeetingUI/DeepLTranslator.cs:23-73 | Blank text comes back unchanged without a request. An error status becomes `DeepL API error (status): body`. Otherwise the result is the first translation, or the text itself when there is none. |
| DeepL.EmptyAnswerKeepsText | TranscribeMeetingUI/DeepLTranslator.cs:57-66 | An empty translations array, or an entry without text, yields the original text. |
| DeepL.JoinSplitBreaks | TranscribeMeetingUI/DeepLTranslator.cs:78 | Joining the `"\n\n"` pieces with `"\n\n"` gives the text back. |
| DeepL.SplitBreaksWellSplit | TranscribeMeetingUI/DeepLTranslator.cs:78 | No piece holds a blank line, and no piece but the last ends in a newline. |
| DeepL.SplitJoin | TranscribeMeetingUI/DeepLTranslator.cs:78 | Splitting undoes joining for pieces shaped as a split leaves them. |
| DeepL.RemoveEmpty | TranscribeMeetingUI/DeepLTranslator.cs:78 | Removing empty entries leaves only non-empty pieces, never more than there were. |
| DeepL.Paragraphs | TranscribeMeetingUI/DeepLTranslator.cs:78 | The non-empty pieces of the `"\n\n"` split; `ParagraphsRoundTrip` states their shape and that they survive a join and re-split. |
| DeepL.ParagraphsRoundTrip | TranscribeMeetingUI/DeepLTranslator.cs:78 | The paragraphs are non-empty and contain no blank line. Joining and re-splitting them gives the same paragraphs. |
| DeepL.TranslateAll | TranscribeMeetingUI/DeepLTranslator.cs:81-93 | Each paragraph is translated in order, one result per paragraph. The batch fails exactly when some paragraph fails, with the first failure's error. |
| DeepL.TranslateBatch | TranscribeMeetingUI/DeepLTranslator.cs:75-96 | The batch succeeds exactly when every paragraph translates, and then its value is the paragraphs' translations in order, joined by `"\n\n"`. Otherwise it fails with the error of the first paragraph that fails. |
| DeepL.IdentityBatchIsIdempotent | TranscribeMeetingUI/DeepLTranslator.cs:78-95 | With an identity translator the batch is join(split(text)), and a second run changes nothing. |
| DeepL.IdentityBatchKeepsCleanText | TranscribeMeetingUI/DeepLTranslator.cs:78-95 | A text without empty paragraphs comes back unchanged from the identity batch. |
| Prompts.KindOf | TranscribeMeetingUI/Summarizer.cs:107-165 | The template is chosen by exact match on `meeting`, `lecture`, `interview` or `podcast`; anything else gets the default. |
| Prompts.SetContext | TranscribeMeetingUI/Summarizer.cs:27-31 | The stored context has the same length and no upper-case letter, and it matches the input ignoring case. |
| Prompts.SetContextIdempotent | TranscribeMeetingUI/Summarizer.cs:27-31 | Setting the context twice is setting it once. |
| Prompts.SetContextIgnoresCase | TranscribeMeetingUI/OpenRouterHandler.cs:30-33 | Once set, the context selects the same template whatever its case. This holds under the invariant culture; under a Turkish culture `Interview` lower-cases to `ınterview` and selects the general template. |
| Prompts.BuildPrompt | TranscribeMeetingUI/Summarizer.cs:107-165 | The context's template around the transcript; `PromptQuotesTranscript` and `UnknownContextIsGeneral` state where the transcript sits and which template is chosen. |
| Prompts.PromptQuotesTranscript | TranscribeMeetingUI/Summarizer.cs:107-165 | The transcript reads back verbatim from the whole-transcript prompt. |
| Prompts.UnknownContextIsGeneral | TranscribeMeetingUI/OpenRouterHandler.cs:53-111 | Every context other than the four named ones gets the general template. |
| Prompts.SegmentNoun | TranscribeMeetingUI/Summarizer.cs:169-171 | Lecture, interview and podcast give `<x> segment`; meeting and everything else give `segment`. |
| Prompts.BuildChunkPrompt | TranscribeMeetingUI/Summarizer.cs:167-179 | The segment prompt; `ChunkPromptNumbersSegment` and `ChunkPromptQuotesTranscript` state that the number and transcript read back from it. |
| Prompts.ChunkPromptNumbersSegment | TranscribeMeetingUI/Summarizer.cs:173 | The segment number reads back from the segment prompt. |
| Prompts.ChunkPromptQuotesTranscript | TranscribeMeetingUI/OpenRouterHandler.cs:113-125 | The segment transcript sits verbatim at the end of the segment prompt, before the closing quotes. |
| Prompts.BuildCombinedPrompt | TranscribeMeetingUI/Summarizer.cs:181-255 | The combining prompt; `CombinedPromptCountsSegments` and `CombinedPromptQuotesSummaries` state that the count and summaries read back from it. |
| Prompts.CombinedPromptCountsSegments | TranscribeMeetingUI/OpenRouterHandler.cs:127-201 | The number of segments reads back from the combining prompt. |
| Prompts.CombinedPromptQuotesSummaries | TranscribeMeetingUI/Summarizer.cs:181-255 | The segment summaries sit verbatim between the context's body and tail. |
| Summarizer.Create | TranscribeMeetingUI/Summarizer.cs:17-25 | A handler exists exactly when OpenRouter is chosen with a non-empty key. The initial context is the lower-case `meeting`. |
| Summarizer.WithContext | TranscribeMeetingUI/MainWindow.xaml.cs:134-142 | A context change keeps the provider. The stored context is lower-case and selects the template of the lower-cased input. |
| Summarizer.Route | TranscribeMeetingUI/Summarizer.cs:33-105 | A request fails exactly when OpenRouter is chosen without a handler. It goes to OpenRouter exactly when the flag is set, and to Ollama otherwise, with the prompt of the current context. |
| Summarizer.Summarize | TranscribeMeetingUI/Summarizer.cs:33-43 | A whole-transcript summary fails with the API-key message exactly when OpenRouter is chosen without a handler. Otherwise it goes to the service the flag chooses, with the whole-transcript prompt of the current context. |
| Summarizer.SummarizeChunk | TranscribeMeetingUI/Summarizer.cs:45-60 | A chunk summary fails with `OpenRouter is not configured.` exactly when OpenRouter is chosen without a handler. Otherwise it goes to the chosen service with the segment prompt for that chunk's transcript and number. |
| Summarizer.SummarizeCombined | TranscribeMeetingUI/Summarizer.cs:62-77 | A combined summary fails in the same way. Otherwise it goes to the chosen service with the combining prompt for the summaries and the chunk total. |
| Summarizer.RoutingFollowsSetting | TranscribeMeetingUI/Summarizer.cs:33-43 | With a key present, summaries go to OpenRouter exactly when the saved flag says so. |
| Summarizer.MissingKeyFailsEverySummary | TranscribeMeetingUI/Summarizer.cs:45-87 | OpenRouter without a key makes every kind of summary fail, each with its own message. |
| Summarizer.BackendsGetSamePrompt | TranscribeMeetingUI/Summarizer.cs:79-93 | Because the context is stored lower-cased, both services receive the same prompt. |
| Summarizer.OllamaOutcome | TranscribeMeetingUI/Summarizer.cs:257-284 | An error status becomes the "Is Ollama running at" message. A missing message becomes `No summary content received.`; otherwise the content is returned. |
| Summarizer.CompletionOutcome | TranscribeMeetingUI/OpenRouterHandler.cs:203-261 | An error status becomes `OpenRouter API error (status): body` and a failed connection `OpenRouter API call failed: …`. Null content becomes `No response content received.` |
| Summarizer.FallbackIsIndistinguishable | TranscribeMeetingUI/OpenRouterHandler.cs:248 | A caller cannot tell missing content from a service that answered with the fallback text. |
| MainView.GetLanguageName | TranscribeMeetingUI/MainWindow.xaml.cs:449-458 | A known code gets its name; any other code is shown as it is. |
| MainView.LanguageNamesIdentifyCodes | TranscribeMeetingUI/MainWindow.xaml.cs:451-456 | The eight names are distinct: each leads back to its code. |
| MainView.UnknownCodesShownAsIs | TranscribeMeetingUI/MainWindow.xaml.cs:457 | A code is shown unchanged exactly when it is not one of the eight. |
| MainView.LiveTranslatedBody | TranscribeMeetingUI/MainWindow.xaml.cs:484-488 | A non-empty translation is shown; otherwise the original text followed by ` [Translating...]`. |
| MainView.RenderLive | TranscribeMeetingUI/MainWindow.xaml.cs:469-508 | A translation status is shown exactly in translation mode with a translator. It names the target language. |
| MainView.LiveOriginalIsFullTranscript | TranscribeMeetingUI/MainWindow.xaml.cs:498-506 | Outside translation mode the live view is the full transcript. |
| MainView.LiveTranslationMatchesTranslatedTranscript | TranscribeMeetingUI/MainWindow.xaml.cs:476-492 | Once every segment has a non-empty translation, the live translated view equals the translated transcript. |
| MainView.EmptyTranslationShownAsPending | TranscribeMeetingUI/MainWindow.xaml.cs:484-488 | An empty stored translation shows as pending in the live view but as empty in the translated transcript. |
| MainView.HandOff | TranscribeMeetingUI/MainWindow.xaml.cs:514-538 | When the transcription of an announced chunk completes, its segment is appended with the chunk's own number, start and end. Nothing else in the store changes, and a translation is requested exactly when a translator is configured. The chunk file and its `.txt` are then gone from disk and every other file is kept. A failed transcription changes nothing and leaves the chunk file on disk. |
| MainView.CompletionsAppendInOrder | TranscribeMeetingUI/MainWindow.xaml.cs:514-524 | Completions in any order append one segment per successful transcription, in completion order, and change nothing else in the store. |
| MainView.CompletionsDeleteTranscribedFiles | TranscribeMeetingUI/MainWindow.xaml.cs:526-532 | Completions delete exactly the files of the successfully transcribed chunks and their `.txt` companions. |
| MainView.TranscribedPermutation | TranscribeMeetingUI/MainWindow.xaml.cs:514-524 | The same chunks completing in another order add the same segments, as a multiset. |
| MainView.DeletedByPermutation | TranscribeMeetingUI/MainWindow.xaml.cs:526-532 | The same chunks completing in another order delete the same files. |
| MainView.CompletionOrderIrrelevant | TranscribeMeetingUI/MainWindow.xaml.cs:514-538 | Whenever the window reads the transcripts, what it reads depends only on which chunks have completed, not on their completion order. With distinct start times, the full and translated transcripts and the files left are the same. |
| MainView.ExportText | TranscribeMeetingUI/MainWindow.xaml.cs:803-806 | The export file's content; `ExportLayout` states where the transcript and summary sit in it. |
| MainView.ExportLayout | TranscribeMeetingUI/MainWindow.xaml.cs:803-806 | The export holds the transcript and summary verbatim at the places its layout fixes, and it ends with a newline. |

## Left out

- NAudio capture, `BufferedWaveProvider`, the NAudio mixer and resampler, and `WaveFileWriter` are foreign code. Sample reads, buffered byte counts and file sizes are inputs.
- Concurrency is not modelled:
  - the mixing and processing tasks, `ConcurrentQueue` thread safety, `Task.Delay`, `Thread.Sleep` and the 5-second stop timeout;
  - the race between the two final-chunk paths, which are modelled as separate finalisers;
  - the live queue polling before cancellation, concurrent with the mixing task's enqueuing: `ProcessChunks` announces the chunks queued when it runs;
  - the interleaving of transcription completions with the window's reads: the completions that happened before a read are a parameter (`done` of `MainView.CompleteAll`), in any order.
- HTTP and JSON for Ollama, OpenRouter and DeepL are abstracted: the answer to one request is a parameter. A malformed JSON body (for example a missing `choices[0]`) is not modelled.
- The Azure Speech SDK and the whisper process are foreign calls; a transcriber is an uninterpreted function.
- `AppSettings` load/save/clone is library serialisation and is not modelled.
- The legacy console program duplicates this logic through the NAudio mixer and is not modelled.
- WPF state, brushes, dialogs, `MessageBox`, the Dispatcher and progress reporting are UI mechanics and are not modelled.
- `DeepL.TranslateBatch`: the 100 ms pause between paragraphs is timing only and is not modelled.
- `Converter.ImportWith` drops the progress description shown during import, which is UI text; `GetFormatDescription` itself is modelled.
- `Recorder.MixBuffers`: samples are `real`, so float rounding and the `float` to byte copy are not modelled.
- `Text.ToLower` and `Text.ToUpper` assume the invariant culture and map ASCII letters only. `ToLower()` and `ToUpper()` use the current culture (AudioConverter.cs:14, 108, 115 and 125; Summarizer.cs:29; OpenRouterHandler.cs:32). Under a Turkish culture `I` becomes `ı` and `i` becomes `İ`, so `x.AVI` is an unknown format and the context `Interview` selects the general template. That case is not modelled.
- `Settings.TryParseInt`: the `NumberStyles.Integer` format is modelled with ASCII digits and white space only. Culture-specific signs and full-width digits are not modelled.
- `NetPath.Combine`: rooted second arguments, drive letters and repeated separators are not modelled. The application only combines a directory with a plain file name.
- `TimeFormat.FormatTimeSpan`: times are whole milliseconds, so sub-millisecond ticks and the rounding of `TimeSpan.FromSeconds(double)` are not modelled.
- `Chunked.ChunkCountIsCeiling`: `Math.Ceiling` over a `double` is modelled with exact integer arithmetic. The durations involved are far below the range where a `double` loses precision.
- `Chunked.TranscribeAudio`: the audio duration is a parameter (the truncated `TotalSeconds` of the reader). The deletion of each chunk's `.wav.txt` companion (ChunkedProcessor.cs:58) is not modelled: the model tracks the chunk files themselves.
- `MainView.ExportText`: the export time stamp is a parameter, since `DateTime` formatting is a library call.
- Null strings are not modelled: every string is a value.
- File deletion failures, swallowed by empty `catch` blocks in the source, are not modelled.
- The debug logging is not modelled.

## Findings

| source | as written | input that shows it | evidently intended | confidence | as-written member | corrected member |
|---|---|---|---|---|---|---|
| TranscribeMeetingUI/SettingsWindow.xaml.cs:117-120 | `Regex.IsMatch(text, "^[0-9]+$")` without the Multiline option lets `$` match before a final line feed, so a digit run followed by `"\n"` passes | `"5\n"` | accept only a non-empty run of ASCII digits | low; not executed (the text-input event rarely delivers a line feed) | Settings.TrailingNewlinePassesFilter | Settings.NumericTextParses |
| TranscribeMeetingUI/SettingsWindow.xaml.cs:164-224 | the provider checks read the saved `UseAzureSTT`/`UseOpenRouter`, not the providers selected on the form being saved | saved settings on Azure with a key; the form switched to local with empty Whisper paths | validate the providers the form selects, so Save never stores unusable settings | high; not executed | Settings.SaveStoresUnusableSettings | Settings.SaveSelectionIsUsable |
| TranscribeMeetingUI/AudioConverter.cs:27-51 | `IsSupportedFormat` admits `.avi`, `.mov`, `.mkv`, `.wmv` and `.flv`, but the `switch` of `ConvertToWavAsync` has no case for them | any `dir\stem.avi` imported through the main window | send the video containers to Media Foundation, which reads their audio track | high; not executed | Converter.AviImportFails | Converter.ImportCorrectedProcessesEverySupportedFile |
