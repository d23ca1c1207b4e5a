/** `ChunkedProcessor`: long imported recordings are cut into fixed-length
    chunks, each chunk is transcribed, the chunk transcripts are joined, and
    the summary is made per chunk and then combined. Audio decoding, the
    transcriber and the summariser are parameters. */
module Chunked {
  import opened Wrappers
  import opened Text
  import opened NetPath
  import opened TimeFormat

  /** `CHUNK_DURATION_SECONDS`. */
  const ChunkDurationSeconds: int := 600

  /** Whether `TranscribeAudioAsync` cuts the file into chunks. */
  predicate NeedsChunking(durationSeconds: int)
  {
    durationSeconds > ChunkDurationSeconds
  }

  /** `Math.Ceiling((double)total / d)` for a positive `d`. */
  function ChunkCount(total: int, d: int): int
    requires d > 0
  {
    if total >= 0 then (total + d - 1) / d else -((-total) / d)
  }

  /** The count is the ceiling of `total / d`: the smallest number of
      `d`-second chunks that cover a non-negative total. */
  lemma ChunkCountIsCeiling(total: int, d: int)
    requires d > 0
    ensures total >= 0 ==> ChunkCount(total, d) >= 0
    ensures total >= 0 ==> (ChunkCount(total, d) - 1) * d < total <= ChunkCount(total, d) * d
    ensures total <= 0 ==> ChunkCount(total, d) <= 0
  {
    var c := ChunkCount(total, d);
    if total >= 0 {
      assert total + d - 1 == d * c + (total + d - 1) % d;
      assert (c - 1) * d == c * d - d;
    }
  }

  /** `AudioChunk`. */
  datatype AudioChunk = AudioChunk(filePath: string, startSeconds: int, endSeconds: int, chunkNumber: int)

  function Min(a: int, b: int): int { if a <= b then a else b }

  /** The directory and base name the chunk files are named from. */
  datatype ChunkNaming = ChunkNaming(directory: string, baseName: string)

  /** `SplitAudioIntoChunksAsync` takes both from the source file, once. */
  function NamingOf(audioFilePath: string): ChunkNaming
  {
    ChunkNaming(DirectoryName(audioFilePath), FileNameWithoutExtension(audioFilePath))
  }

  /** The file of chunk number `n` (1-based): `<baseName>_chunk_<n>.wav` in
      the source file's directory. */
  function ChunkFilePath(naming: ChunkNaming, n: int): string
  {
    Combine(naming.directory, naming.baseName + "_chunk_" + IntToString(n) + ".wav")
  }

  /** The chunk boundaries of `SplitAudioIntoChunksAsync`: chunk `i` (from 0)
      starts at `i*d` and ends at `(i+1)*d` or at the end of the file. */
  function SplitPlan(naming: ChunkNaming, total: int, d: int): (r: seq<AudioChunk>)
    requires d > 0
    ensures |r| == if ChunkCount(total, d) < 0 then 0 else ChunkCount(total, d)
    ensures forall i :: 0 <= i < |r| ==>
      r[i].startSeconds == i * d && r[i].endSeconds == Min((i + 1) * d, total) && r[i].chunkNumber == i + 1
    ensures forall i :: 0 <= i < |r| ==>
      r[i].filePath == ChunkFilePath(naming, i + 1)
  {
    var c := ChunkCount(total, d);
    seq(if c < 0 then 0 else c, i requires 0 <= i => PlannedChunk(naming, total, d, i))
  }

  /** Chunk `i` of the plan. */
  function PlannedChunk(naming: ChunkNaming, total: int, d: int, i: int): AudioChunk
  {
    AudioChunk(ChunkFilePath(naming, i + 1), i * d, Min((i + 1) * d, total), i + 1)
  }

  lemma MulMonotone(a: int, b: int, d: int)
    requires a <= b && d >= 0
    ensures a * d <= b * d
  {
    assert b * d - a * d == (b - a) * d;
  }

  /** Chunk `i` of a positive total starts inside the file and lasts more
      than 0 and at most `d` seconds; it ends at the next boundary unless it
      is the last, which ends with the file. */
  lemma ChunkBoundaries(total: int, d: int, i: int)
    requires d > 0 && total > 0 && 0 <= i < ChunkCount(total, d)
    ensures 0 <= i * d < total
    ensures 0 < Min((i + 1) * d, total) - i * d <= d
    ensures i + 1 < ChunkCount(total, d) ==> Min((i + 1) * d, total) == (i + 1) * d
    ensures i + 1 == ChunkCount(total, d) ==> Min((i + 1) * d, total) == total
  {
    var c := ChunkCount(total, d);
    ChunkCountIsCeiling(total, d);
    MulMonotone(i, c - 1, d);
    MulMonotone(0, i, d);
    assert (i + 1) * d == i * d + d;
    if i + 1 < c {
      MulMonotone(i + 1, c - 1, d);
    } else {
      assert (c - 1 + 1) * d == c * d;
    }
  }

  /** The chunks tile the file: numbered 1, 2, ... in order, the first
      starting at 0, each starting where its predecessor ended, the last
      ending at the end of the file, and each lasting more than 0 and at most
      `d` seconds. */
  lemma SplitPlanTiles(naming: ChunkNaming, total: int, d: int)
    requires d > 0 && total > 0
    ensures var r := SplitPlan(naming, total, d);
      && |r| > 0
      && r[0].startSeconds == 0
      && r[|r| - 1].endSeconds == total
      && (forall i :: 0 <= i < |r| ==> r[i].chunkNumber == i + 1)
      && (forall i :: 0 <= i < |r| - 1 ==> r[i].endSeconds == r[i + 1].startSeconds)
      && (forall i :: 0 <= i < |r| ==> 0 < r[i].endSeconds - r[i].startSeconds <= d)
  {
    var r := SplitPlan(naming, total, d);
    var c := ChunkCount(total, d);
    ChunkCountIsCeiling(total, d);
    assert c > 0 by {
      if c <= 0 { MulMonotone(c, 0, d); }
    }
    forall i | 0 <= i < |r|
      ensures 0 < r[i].endSeconds - r[i].startSeconds <= d
      ensures i < |r| - 1 ==> r[i].endSeconds == r[i + 1].startSeconds
    {
      ChunkBoundaries(total, d, i);
    }
    ChunkBoundaries(total, d, c - 1);
  }

  lemma ChunkCountNonNegative(total: int, d: int)
    requires d > 0 && total >= 0
    ensures ChunkCount(total, d) >= 0
  {
    ChunkCountIsCeiling(total, d);
  }

  /** A file longer than one chunk is cut into at least two chunks; one of
      at most `d` seconds into at most one. */
  lemma ChunkCountAtLeastTwo(total: int, d: int)
    requires d > 0
    ensures total > d ==> ChunkCount(total, d) >= 2
    ensures 0 < total <= d ==> ChunkCount(total, d) == 1
  {
    var c := ChunkCount(total, d);
    ChunkCountIsCeiling(total, d);
    if total > d {
      if c <= 1 { MulMonotone(c, 1, d); }
    } else if 0 < total <= d {
      if c >= 2 { MulMonotone(1, c - 1, d); }
      if c <= 0 { MulMonotone(c, 0, d); }
    }
  }

  /** One call of `reader.Read` in the copy loop: the bytes written before
      it, the bytes it asked for and the bytes it returned. */
  datatype ReadCall = ReadCall(before: int, asked: int, got: int)

  /** The calls of the copy loop so far: the first starts from nothing, each
      starts where its predecessor left off, asks for the smaller of the
      buffer size and what is still missing, and gets what `read` gives. */
  predicate CopyLog(bufferLength: int, bytesToRead: int, read: (nat, nat) -> nat, calls: seq<ReadCall>)
  {
    && (|calls| > 0 ==> calls[0].before == 0)
    && (forall k :: 0 <= k < |calls| - 1 ==> calls[k + 1].before == calls[k].before + calls[k].got)
    && (forall k :: 0 <= k < |calls| ==>
          && calls[k].asked == Min(bufferLength, bytesToRead - calls[k].before)
          && calls[k].asked >= 0
          && calls[k].got == read(k, calls[k].asked))
  }

  lemma CopyLogSnoc(bufferLength: int, bytesToRead: int, read: (nat, nat) -> nat,
                    calls: seq<ReadCall>, written: int)
    requires CopyLog(bufferLength, bytesToRead, read, calls)
    requires |calls| == 0 ==> written == 0
    requires |calls| > 0 ==> written == calls[|calls| - 1].before + calls[|calls| - 1].got
    requires Min(bufferLength, bytesToRead - written) >= 0
    ensures var a := Min(bufferLength, bytesToRead - written);
      CopyLog(bufferLength, bytesToRead, read, calls + [ReadCall(written, a, read(|calls|, a))])
  {
  }

  /** The byte-copy loop of `SplitAudioIntoChunksAsync`. `read(k, n)` is what
      the `k`-th call of `reader.Read` returns when asked for `n` bytes; it
      never returns more than it was asked for. Returns the bytes written and
      the calls made. */
  method CopyChunk(bufferLength: int, bytesToRead: int, read: (nat, nat) -> nat)
    returns (written: int, calls: seq<ReadCall>)
    requires bufferLength > 0
    requires forall k: nat, n: nat :: read(k, n) <= n
    ensures 0 <= written && (bytesToRead >= 0 ==> written <= bytesToRead)
    ensures bytesToRead <= 0 ==> written == 0 && calls == []
    ensures CopyLog(bufferLength, bytesToRead, read, calls)
    ensures forall k :: 0 <= k < |calls| - 1 ==> calls[k].got > 0
    ensures |calls| > 0 ==> written == calls[|calls| - 1].before + calls[|calls| - 1].got
    ensures written >= bytesToRead || (|calls| > 0 && calls[|calls| - 1].got == 0)
  {
    written := 0;
    calls := [];
    while written < bytesToRead
      invariant 0 <= written && (bytesToRead >= 0 ==> written <= bytesToRead)
      invariant bytesToRead <= 0 ==> calls == []
      invariant CopyLog(bufferLength, bytesToRead, read, calls)
      invariant forall k :: 0 <= k < |calls| ==> calls[k].got > 0
      invariant |calls| > 0 ==> written == calls[|calls| - 1].before + calls[|calls| - 1].got
      invariant |calls| == 0 ==> written == 0
      decreases bytesToRead - written
    {
      var toRead := Min(bufferLength, bytesToRead - written);
      var n := read(|calls|, toRead);
      CopyLogSnoc(bufferLength, bytesToRead, read, calls, written);
      calls := calls + [ReadCall(written, toRead, n)];
      if n == 0 {
        return;
      }
      written := written + n;
    }
  }

  /** `ChunkResult`. */
  datatype ChunkResult = ChunkResult(chunkNumber: int, startTime: string, endTime: string,
                                     transcript: string, summary: string)

  /** `TranscriptionResult`; `chunkResults` is `None` for a file transcribed
      in one piece. */
  datatype TranscriptionResult = TranscriptionResult(fullTranscript: string, chunkCount: int,
                                                     chunkResults: Option<seq<ChunkResult>>)

  /** The separator between chunk transcripts: a line of 80 `=` between
      blank lines. */
  function ChunkSeparator(): string
  {
    "\n\n" + Repeat('=', 80) + "\n\n"
  }

  /** The block of one chunk in the joined transcript. */
  function ChunkBlock(c: ChunkResult): string
  {
    "[" + c.startTime + " - " + c.endTime + "]\n" + c.transcript
  }

  function ChunkBlocks(results: seq<ChunkResult>): (r: seq<string>)
    ensures |r| == |results| && forall i :: 0 <= i < |r| ==> r[i] == ChunkBlock(results[i])
  {
    seq(|results|, i requires 0 <= i < |results| => ChunkBlock(results[i]))
  }

  /** The index of the first failed call among `outcomes`, or `|outcomes|`
      when none failed: how far a loop that stops at the first exception
      gets. */
  function FirstFailure<R>(outcomes: seq<Result<R>>): (k: nat)
    ensures k <= |outcomes|
    ensures forall j :: 0 <= j < k ==> outcomes[j].Success?
    ensures k < |outcomes| ==> outcomes[k].Failure?
    decreases |outcomes|
  {
    if |outcomes| == 0 || outcomes[0].Failure? then 0
    else
      assert forall j :: 0 <= j < |outcomes| - 1 ==> outcomes[1..][j] == outcomes[j + 1];
      1 + FirstFailure(outcomes[1..])
  }

  /** After a first success, the first failure is one further on than in
      the remaining calls. */
  lemma FirstFailureOfTail<R>(outcomes: seq<Result<R>>, tail: seq<Result<R>>)
    requires |outcomes| > 0 && outcomes[0].Success?
    requires |tail| == |outcomes| - 1 && forall j :: 0 <= j < |tail| ==> tail[j] == outcomes[j + 1]
    ensures FirstFailure(outcomes) == 1 + FirstFailure(tail)
  {
    assert outcomes[1..] == tail;
  }

  /** The result of transcribing chunk `c` into `transcript`. */
  function TranscribeChunk(c: AudioChunk, transcript: string): ChunkResult
  {
    ChunkResult(c.chunkNumber, FormatDuration(if c.startSeconds < 0 then 0 else c.startSeconds),
                FormatDuration(if c.endSeconds < 0 then 0 else c.endSeconds),
                transcript, "")
  }

  /** What `Transcriber.TranscribeAsync` gives for each planned chunk's file. */
  function TranscribeCalls(plan: seq<AudioChunk>, transcribe: string -> Result<string>): (r: seq<Result<string>>)
    ensures |r| == |plan| && forall i :: 0 <= i < |r| ==> r[i] == transcribe(plan[i].filePath)
  {
    seq(|plan|, i requires 0 <= i < |plan| => transcribe(plan[i].filePath))
  }

  function ChunkFiles(plan: seq<AudioChunk>): (r: seq<string>)
    ensures |r| == |plan| && forall i :: 0 <= i < |r| ==> r[i] == plan[i].filePath
  {
    seq(|plan|, i requires 0 <= i < |plan| => plan[i].filePath)
  }

  /** What the chunk loop leaves: the chunk results or the error that ended
      it, and the chunk files still on disk. */
  datatype ChunkOutcome = ChunkOutcome(results: Result<seq<ChunkResult>>, filesLeft: seq<string>)

  /** The chunk loop of `TranscribeAudioAsync`: each chunk is transcribed in
      turn and its file deleted once its transcript is in. Nothing catches an
      exception of the transcriber, so the first one ends the loop with that
      error, leaving the failing chunk's file and every later one on disk. */
  function ChunkLoop(plan: seq<AudioChunk>, transcribe: string -> Result<string>): (r: ChunkOutcome)
    ensures var k := FirstFailure(TranscribeCalls(plan, transcribe));
      && (r.results.Success? <==> k == |plan|)
      && (r.results.Success? ==>
            && |r.results.value| == |plan|
            && (forall i :: 0 <= i < |plan| ==>
                  r.results.value[i] == TranscribeChunk(plan[i], transcribe(plan[i].filePath).value)))
      && (k < |plan| ==> r.results == Failure(transcribe(plan[k].filePath).error))
      && r.filesLeft == ChunkFiles(plan[k..])
    decreases |plan|
  {
    if |plan| == 0 then ChunkOutcome(Success([]), [])
    else
      match transcribe(plan[0].filePath)
      case Failure(e) => ChunkOutcome(Failure(e), ChunkFiles(plan))
      case Success(t) =>
        var rest := ChunkLoop(plan[1..], transcribe);
        FirstFailureOfTail(TranscribeCalls(plan, transcribe), TranscribeCalls(plan[1..], transcribe));
        assert plan[1..][FirstFailure(TranscribeCalls(plan[1..], transcribe))..]
            == plan[FirstFailure(TranscribeCalls(plan, transcribe))..];
        var results := if rest.results.Success? then Success([TranscribeChunk(plan[0], t)] + rest.results.value)
                       else rest.results;
        ChunkOutcome(results, rest.filesLeft)
  }

  /** What `TranscribeAudioAsync` leaves: its result or the error it throws,
      and the chunk files it leaves on disk. */
  datatype TranscribeOutcome = TranscribeOutcome(result: Result<TranscriptionResult>, chunkFilesLeft: seq<string>)

  /** `TranscribeAudioAsync` for a file of `durationSeconds` whole seconds;
      `transcribe` stands for `Transcriber.TranscribeAsync`, whose exceptions
      are failures. The chunk files are named by `naming`, which the
      application takes from the file as `NamingOf(audioFilePath)` (see
      `TranscribeFile`); what is proved here holds for any naming. A file of
      one chunk is transcribed in one call. A longer one succeeds exactly
      when every chunk of the plan does, with one result per chunk joined in
      plan order, and no chunk file is left; otherwise the error is that of
      the first failing chunk, whose file and every later one are left. */
  function TranscribeAudio(audioFilePath: string, naming: ChunkNaming, durationSeconds: int,
                           transcribe: string -> Result<string>): (r: TranscribeOutcome)
    ensures !NeedsChunking(durationSeconds) ==>
      && r.chunkFilesLeft == []
      && (r.result.Success? <==> transcribe(audioFilePath).Success?)
      && (r.result.Success? ==> r.result.value == TranscriptionResult(transcribe(audioFilePath).value, 1, None))
      && (r.result.Failure? ==> r.result.error == transcribe(audioFilePath).error)
    ensures NeedsChunking(durationSeconds) ==>
      var plan := SplitPlan(naming, durationSeconds, ChunkDurationSeconds);
      var k := FirstFailure(TranscribeCalls(plan, transcribe));
      && (r.result.Success? <==> k == |plan|)
      && (k < |plan| ==> r.result == Failure(transcribe(plan[k].filePath).error))
      && r.chunkFilesLeft == ChunkFiles(plan[k..])
      && (r.result.Success? ==>
            var t := r.result.value;
            && t.chunkCount == |plan|
            && t.chunkResults.Some? && |t.chunkResults.value| == |plan|
            && (forall i :: 0 <= i < |plan| ==>
                  t.chunkResults.value[i] == TranscribeChunk(plan[i], transcribe(plan[i].filePath).value))
            && t.fullTranscript == Join(ChunkBlocks(t.chunkResults.value), ChunkSeparator()))
  {
    if !NeedsChunking(durationSeconds) then
      match transcribe(audioFilePath)
      case Success(t) => TranscribeOutcome(Success(TranscriptionResult(t, 1, None)), [])
      case Failure(e) => TranscribeOutcome(Failure(e), [])
    else
      var loop := ChunkLoop(SplitPlan(naming, durationSeconds, ChunkDurationSeconds), transcribe);
      match loop.results
      case Success(results) =>
        TranscribeOutcome(Success(TranscriptionResult(Join(ChunkBlocks(results), ChunkSeparator()), |results|, Some(results))),
                          loop.filesLeft)
      case Failure(e) => TranscribeOutcome(Failure(e), loop.filesLeft)
  }

  /** In terms of the chunk files: a long file's transcription succeeds
      exactly when every chunk's does, and then leaves no chunk file. */
  lemma ChunkedSuccessNeedsEveryChunk(audioFilePath: string, naming: ChunkNaming, durationSeconds: int,
                                      transcribe: string -> Result<string>)
    requires NeedsChunking(durationSeconds)
    ensures var r := TranscribeAudio(audioFilePath, naming, durationSeconds, transcribe);
      && (r.result.Success? <==>
            forall i :: 1 <= i <= ChunkCount(durationSeconds, ChunkDurationSeconds) ==>
              transcribe(ChunkFilePath(naming, i)).Success?)
      && (r.result.Success? ==> r.chunkFilesLeft == [])
  {
    ChunkCountNonNegative(durationSeconds, ChunkDurationSeconds);
    var plan := SplitPlan(naming, durationSeconds, ChunkDurationSeconds);
    var calls := TranscribeCalls(plan, transcribe);
    var k := FirstFailure(calls);
    forall i | 1 <= i <= k
      ensures transcribe(ChunkFilePath(naming, i)).Success?
    {
      assert calls[i - 1] == transcribe(plan[i - 1].filePath);
    }
    if k < |plan| {
      assert calls[k] == transcribe(ChunkFilePath(naming, k + 1));
    }
  }

  /** In terms of the chunk files: when chunk `k` (numbered from 1) is the
      first whose transcription fails, the long file's transcription fails
      with its error and leaves the files of chunks `k`, `k+1`, ... up to the
      last on disk. */
  lemma ChunkFailureLeavesLaterFiles(audioFilePath: string, naming: ChunkNaming, durationSeconds: int,
                                     transcribe: string -> Result<string>, k: int)
    requires NeedsChunking(durationSeconds)
    requires 1 <= k <= ChunkCount(durationSeconds, ChunkDurationSeconds)
    requires forall i :: 1 <= i < k ==> transcribe(ChunkFilePath(naming, i)).Success?
    requires transcribe(ChunkFilePath(naming, k)).Failure?
    ensures var r := TranscribeAudio(audioFilePath, naming, durationSeconds, transcribe);
      && r.result == Failure(transcribe(ChunkFilePath(naming, k)).error)
      && |r.chunkFilesLeft| == ChunkCount(durationSeconds, ChunkDurationSeconds) - k + 1
      && (forall j :: 0 <= j < |r.chunkFilesLeft| ==> r.chunkFilesLeft[j] == ChunkFilePath(naming, k + j))
  {
    ChunkCountNonNegative(durationSeconds, ChunkDurationSeconds);
    var r := TranscribeAudio(audioFilePath, naming, durationSeconds, transcribe);
    var plan := SplitPlan(naming, durationSeconds, ChunkDurationSeconds);
    var calls := TranscribeCalls(plan, transcribe);
    var f := FirstFailure(calls);
    assert calls[k - 1] == transcribe(ChunkFilePath(naming, k));
    assert f == k - 1;
    forall j | 0 <= j < |r.chunkFilesLeft|
      ensures r.chunkFilesLeft[j] == ChunkFilePath(naming, k + j)
    {
      assert r.chunkFilesLeft[j] == plan[k - 1 + j].filePath;
    }
  }

  /** A chunked transcription without error holds one result per chunk,
      numbered from 1 in order, each with an empty summary and the
      transcript of that chunk's own file. */
  lemma ChunkTranscriptsInOrder(audioFilePath: string, naming: ChunkNaming, durationSeconds: int,
                                transcribe: string -> Result<string>, i: int)
    requires NeedsChunking(durationSeconds)
    requires TranscribeAudio(audioFilePath, naming, durationSeconds, transcribe).result.Success?
    ensures var t := TranscribeAudio(audioFilePath, naming, durationSeconds, transcribe).result.value;
      && t.chunkCount == ChunkCount(durationSeconds, ChunkDurationSeconds)
      && t.chunkResults.Some? && |t.chunkResults.value| == t.chunkCount
      && (0 <= i < t.chunkCount ==>
            && transcribe(ChunkFilePath(naming, i + 1)).Success?
            && t.chunkResults.value[i].chunkNumber == i + 1
            && t.chunkResults.value[i].summary == ""
            && t.chunkResults.value[i].transcript == transcribe(ChunkFilePath(naming, i + 1)).value)
  {
    ChunkCountNonNegative(durationSeconds, ChunkDurationSeconds);
    var plan := SplitPlan(naming, durationSeconds, ChunkDurationSeconds);
    if 0 <= i < |plan| {
      assert TranscribeCalls(plan, transcribe)[i] == transcribe(plan[i].filePath);
    }
  }

  /** `TranscribeAudioAsync` with the chunk files named after the source. */
  function TranscribeFile(audioFilePath: string, durationSeconds: int,
                          transcribe: string -> Result<string>): TranscribeOutcome
  {
    TranscribeAudio(audioFilePath, NamingOf(audioFilePath), durationSeconds, transcribe)
  }

  /** The time labels of a chunked transcript read back as the chunk
      boundaries in seconds: chunk `i` from `600*i` to the next boundary or the
      end of the file. */
  lemma ChunkLabelsReadBack(audioFilePath: string, naming: ChunkNaming, durationSeconds: int,
                            transcribe: string -> Result<string>, i: int)
    requires NeedsChunking(durationSeconds)
    requires TranscribeAudio(audioFilePath, naming, durationSeconds, transcribe).result.Success?
    requires 0 <= i < TranscribeAudio(audioFilePath, naming, durationSeconds, transcribe).result.value.chunkCount
    ensures var c := TranscribeAudio(audioFilePath, naming, durationSeconds, transcribe).result.value.chunkResults.value[i];
      && ParseClock(c.startTime) == Some(i * ChunkDurationSeconds)
      && ParseClock(c.endTime) == Some(Min((i + 1) * ChunkDurationSeconds, durationSeconds))
  {
    var plan := SplitPlan(naming, durationSeconds, ChunkDurationSeconds);
    var loop := ChunkLoop(plan, transcribe);
    var c := TranscribeAudio(audioFilePath, naming, durationSeconds, transcribe).result.value.chunkResults.value[i];
    assert c == loop.results.value[i];
    assert c == TranscribeChunk(plan[i], transcribe(plan[i].filePath).value);
    ChunkBoundaries(durationSeconds, ChunkDurationSeconds, i);
    FormatDurationRoundTrip(i * ChunkDurationSeconds);
    FormatDurationRoundTrip(Min((i + 1) * ChunkDurationSeconds, durationSeconds));
  }

  /** One block of the combined summaries. */
  function SummaryBlock(c: ChunkResult): string
  {
    "Segment " + IntToString(c.chunkNumber) + " (" + c.startTime + " - " + c.endTime + "):\n" + c.summary
  }

  function SummaryBlocks(results: seq<ChunkResult>): (r: seq<string>)
    ensures |r| == |results| && forall i :: 0 <= i < |r| ==> r[i] == SummaryBlock(results[i])
  {
    seq(|results|, i requires 0 <= i < |results| => SummaryBlock(results[i]))
  }

  /** What `SummarizeChunkAsync` gives for each chunk. */
  function ChunkSummaryCalls(results: seq<ChunkResult>, summarizeChunk: (string, int) -> Result<string>): (r: seq<Result<string>>)
    ensures |r| == |results|
    ensures forall i :: 0 <= i < |r| ==> r[i] == summarizeChunk(results[i].transcript, results[i].chunkNumber)
  {
    seq(|results|, i requires 0 <= i < |results| => summarizeChunk(results[i].transcript, results[i].chunkNumber))
  }

  /** What the summary loop leaves: the chunk results as it leaves them, the
      calls it made and the error that ended it, if any. */
  datatype SummaryLoopOutcome = SummaryLoopOutcome(results: seq<ChunkResult>, calls: seq<(string, int)>, error: Option<string>)

  /** What the per-chunk loop of `SummarizeTranscriptAsync` leaves, with `k`
      the first chunk whose summary fails: the chunks before `k` carry their
      new summaries and the rest are untouched; the calls made are those of
      the chunks up to and including `k`, in order; and the error is `k`'s. */
  predicate SummaryLoopLeaves(results: seq<ChunkResult>, summarizeChunk: (string, int) -> Result<string>,
                              r: SummaryLoopOutcome)
  {
    var outcomes := ChunkSummaryCalls(results, summarizeChunk);
    var k := FirstFailure(outcomes);
    && |r.results| == |results|
    && (forall i :: 0 <= i < k ==> r.results[i] == results[i].(summary := outcomes[i].value))
    && (forall i :: k <= i < |results| ==> r.results[i] == results[i])
    && |r.calls| == (if k < |results| then k + 1 else |results|)
    && (forall i :: 0 <= i < |r.calls| ==> r.calls[i] == (results[i].transcript, results[i].chunkNumber))
    && (r.error.None? <==> k == |results|)
    && (k < |results| ==> r.error == Some(outcomes[k].error))
  }

  /** The per-chunk loop of `SummarizeTranscriptAsync`: each chunk's summary
      is written into the chunk result as soon as it is returned, and the
      first exception ends the loop. */
  function SummaryLoop(results: seq<ChunkResult>, summarizeChunk: (string, int) -> Result<string>): (r: SummaryLoopOutcome)
    ensures SummaryLoopLeaves(results, summarizeChunk, r)
    decreases |results|
  {
    if |results| == 0 then SummaryLoopOutcome([], [], None)
    else
      var call := (results[0].transcript, results[0].chunkNumber);
      match summarizeChunk(call.0, call.1)
      case Failure(e) => SummaryLoopOutcome(results, [call], Some(e))
      case Success(s) =>
        var rest := SummaryLoop(results[1..], summarizeChunk);
        SummaryLoopCons(results, summarizeChunk, s, rest);
        SummaryLoopOutcome([results[0].(summary := s)] + rest.results, [call] + rest.calls, rest.error)
  }

  /** A chunk summarised without error in front of what the loop leaves on
      the remaining chunks is what it leaves on them all. */
  lemma SummaryLoopCons(results: seq<ChunkResult>, summarizeChunk: (string, int) -> Result<string>,
                        s: string, rest: SummaryLoopOutcome)
    requires |results| > 0 && summarizeChunk(results[0].transcript, results[0].chunkNumber) == Success(s)
    requires SummaryLoopLeaves(results[1..], summarizeChunk, rest)
    ensures SummaryLoopLeaves(results, summarizeChunk,
      SummaryLoopOutcome([results[0].(summary := s)] + rest.results,
                         [(results[0].transcript, results[0].chunkNumber)] + rest.calls, rest.error))
  {
    var outcomes := ChunkSummaryCalls(results, summarizeChunk);
    var tail := ChunkSummaryCalls(results[1..], summarizeChunk);
    FirstFailureOfTail(outcomes, tail);
    var k := FirstFailure(outcomes);
    var r := SummaryLoopOutcome([results[0].(summary := s)] + rest.results,
                                [(results[0].transcript, results[0].chunkNumber)] + rest.calls, rest.error);
    forall i | 1 <= i < |results|
      ensures r.results[i] == rest.results[i - 1] && results[1..][i - 1] == results[i]
      ensures tail[i - 1] == outcomes[i]
    {
    }
    forall i | 1 <= i < |r.calls|
      ensures r.calls[i] == rest.calls[i - 1]
    {
    }
  }

  /** The calls `SummarizeTranscriptAsync` makes on the summariser: the
      whole transcript once, or the chunks one by one and then, if none of
      those threw, the combined summaries with the chunk total. */
  datatype SummaryCalls =
    | Single(transcript: string)
    | PerChunk(chunkCalls: seq<(string, int)>, combined: Option<(string, int)>)

  /** What `SummarizeTranscriptAsync` leaves: the calls it made, the summary
      or the error it throws, and the transcription result's chunk results
      as it leaves them (it writes the summaries into them). */
  datatype SummaryOutcome = SummaryOutcome(calls: SummaryCalls, summary: Result<string>,
                                           chunkResults: Option<seq<ChunkResult>>)

  /** `SummarizeTranscriptAsync`: one call on the whole transcript for a
      single-chunk result or one without chunk results; otherwise a call per
      chunk, in chunk order, then one on the combined summaries. Nothing is
      caught: a failing chunk summary ends it with that error, after the
      earlier chunks' summaries were written and before the combined call. */
  function SummarizeTranscript(result: TranscriptionResult,
                               summarize: string -> Result<string>,
                               summarizeChunk: (string, int) -> Result<string>,
                               summarizeCombined: (string, int) -> Result<string>): (r: SummaryOutcome)
    ensures result.chunkCount == 1 || result.chunkResults.None? <==> r.calls.Single?
    ensures r.calls.Single? ==>
      && r.calls.transcript == result.fullTranscript
      && r.summary == summarize(result.fullTranscript)
      && r.chunkResults == result.chunkResults
    ensures r.calls.PerChunk? ==>
      && var results := result.chunkResults.value;
      && var outcomes := ChunkSummaryCalls(results, summarizeChunk);
      && var k := FirstFailure(outcomes);
      && |r.calls.chunkCalls| == (if k < |results| then k + 1 else |results|)
      && (forall i :: 0 <= i < |r.calls.chunkCalls| ==>
            r.calls.chunkCalls[i] == (results[i].transcript, results[i].chunkNumber))
      && r.chunkResults.Some? && |r.chunkResults.value| == |results|
      && (forall i :: 0 <= i < k ==> r.chunkResults.value[i] == results[i].(summary := outcomes[i].value))
      && (forall i :: k <= i < |results| ==> r.chunkResults.value[i] == results[i])
      && (k < |results| ==> r.summary == Failure(outcomes[k].error) && r.calls.combined.None?)
      && (k == |results| ==>
            var combined := Join(SummaryBlocks(r.chunkResults.value), "\n\n");
            && r.calls.combined == Some((combined, |results|))
            && r.summary == summarizeCombined(combined, |results|))
  {
    if result.chunkCount == 1 || result.chunkResults.None? then
      SummaryOutcome(Single(result.fullTranscript), summarize(result.fullTranscript), result.chunkResults)
    else
      var results := result.chunkResults.value;
      var loop := SummaryLoop(results, summarizeChunk);
      if loop.error.Some? then
        SummaryOutcome(PerChunk(loop.calls, None), Failure(loop.error.value), Some(loop.results))
      else
        var combined := Join(SummaryBlocks(loop.results), "\n\n");
        SummaryOutcome(PerChunk(loop.calls, Some((combined, |results|))),
                       summarizeCombined(combined, |results|), Some(loop.results))
  }

  /** End to end: a file transcribed without error is summarised chunk by
      chunk exactly when it is longer than one chunk, with the chunk numbers
      1, 2, ... in order; a shorter one in one call. */
  lemma LongFilesSummarisedPerChunk(audioFilePath: string, naming: ChunkNaming, durationSeconds: int,
                                    transcribe: string -> Result<string>, summarize: string -> Result<string>,
                                    summarizeChunk: (string, int) -> Result<string>,
                                    summarizeCombined: (string, int) -> Result<string>)
    requires TranscribeAudio(audioFilePath, naming, durationSeconds, transcribe).result.Success?
    ensures var t := TranscribeAudio(audioFilePath, naming, durationSeconds, transcribe).result.value;
      var calls := SummarizeTranscript(t, summarize, summarizeChunk, summarizeCombined).calls;
      && (NeedsChunking(durationSeconds) <==> calls.PerChunk?)
      && (calls.PerChunk? ==> forall i :: 0 <= i < |calls.chunkCalls| ==> calls.chunkCalls[i].1 == i + 1)
  {
    var t := TranscribeAudio(audioFilePath, naming, durationSeconds, transcribe).result.value;
    if NeedsChunking(durationSeconds) {
      ChunkCountAtLeastTwo(durationSeconds, ChunkDurationSeconds);
      assert t.chunkCount >= 2 && t.chunkResults.Some?;
    } else {
      assert t.chunkCount == 1;
    }
  }
}
