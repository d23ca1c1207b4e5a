/** The state of `RealTimeTranscriber` that its ordering, numbering and
    size-threshold rules act on: the chunk rotator of `MixAndWrite`, the two
    end-of-session finalisers, the FIFO announcing of `ProcessChunksAsync`,
    the segment store with its translation overlay, and the chunk-file
    naming and clean-up.

    The clock is an integer count of milliseconds; every `DateTime.Now` read
    of the source is a separate parameter. The file system is a map from
    path to file length. */
module RealTime {
  import opened Wrappers
  import opened Text
  import opened NetPath
  import opened Transcript

  /** `ChunkToProcess`; times are offsets from the recording start, in ms. */
  datatype ChunkToProcess = ChunkToProcess(filePath: string, chunkNumber: int, startMs: int, endMs: int)

  /** The fields of a `RealTimeTranscriber` the model follows. */
  datatype Session = Session(
    chunkDurationSeconds: int,
    outputDirectory: string,
    baseFileName: string,
    recordingStartMs: int,
    lastChunkMs: int,
    chunkCounter: int,
    queue: seq<ChunkToProcess>,
    segments: seq<Segment>,
    translations: map<int, string>,
    translatorPresent: bool)

  /** Path lengths of the files on disk. */
  type FileSystem = map<string, nat>

  /** `GetChunkPath`. */
  function ChunkPath(s: Session, n: int): string
  {
    Combine(s.outputDirectory, s.baseFileName + "_rt_chunk_" + IntToString(n) + ".wav")
  }

  /** The path `StopRecordingAsync` returns: the full recording. */
  function MainFilePath(s: Session): string
  {
    Combine(s.outputDirectory, s.baseFileName + ".wav")
  }

  /** `StartRecording`: the clock is read twice (`t0` for the recording start,
      then `t1` for the first chunk), the chunk counter restarts at 0 and the
      segments and translations are cleared. The queue of chunks still
      waiting is not cleared. */
  function StartRecording(prev: Session, outputFilePath: string, translatorPresent: bool,
                          chunkIntervalSeconds: int, t0: int, t1: int): (r: Session)
    requires t0 <= t1
    ensures r.chunkCounter == 0 && r.segments == [] && r.translations == map[]
    ensures r.recordingStartMs == t0 && r.lastChunkMs == t1 && r.lastChunkMs >= r.recordingStartMs
    ensures r.queue == prev.queue
    ensures r.chunkDurationSeconds == chunkIntervalSeconds && r.translatorPresent == translatorPresent
    ensures HasNoSeparator(r.baseFileName)
  {
    Session(chunkIntervalSeconds, DirectoryName(outputFilePath),
            FileNameWithoutExtension(outputFilePath), t0, t1, 0, prev.queue, [], map[],
            translatorPresent)
  }

  /** One pass of the mixing loop. `samplesRead` is what the mixer delivered
      (0 when neither buffer had data, so that nothing was read); the clock is
      read three times when a rotation happens: for the check, for the
      elapsed time, and for the new `lastChunkTime`. */
  datatype Tick = Tick(samplesRead: int, nowCheck: int, nowElapsed: int, nowReset: int)

  predicate RotationDue(s: Session, t: Tick)
  {
    t.samplesRead > 0 && t.nowCheck - s.lastChunkMs >= s.chunkDurationSeconds * 1000
  }

  /** The chunk a rotation enqueues: the current counter, the current chunk
      file, ending at the elapsed time and starting one chunk duration
      earlier. */
  function RotatedChunk(s: Session, t: Tick): (c: ChunkToProcess)
    ensures c.chunkNumber == s.chunkCounter && c.filePath == ChunkPath(s, s.chunkCounter)
    ensures c.endMs == t.nowElapsed - s.recordingStartMs
    ensures c.endMs - c.startMs == s.chunkDurationSeconds * 1000
  {
    var elapsed := t.nowElapsed - s.recordingStartMs;
    ChunkToProcess(ChunkPath(s, s.chunkCounter), s.chunkCounter,
                   elapsed - s.chunkDurationSeconds * 1000, elapsed)
  }

  /** The rotation rule of `MixAndWrite`. */
  function MixStep(s: Session, t: Tick): (r: Session)
    ensures RotationDue(s, t) ==> r == s.(queue := s.queue + [RotatedChunk(s, t)],
                                          chunkCounter := s.chunkCounter + 1,
                                          lastChunkMs := t.nowReset)
    ensures !RotationDue(s, t) ==> r == s
  {
    if RotationDue(s, t) then
      s.(queue := s.queue + [RotatedChunk(s, t)], chunkCounter := s.chunkCounter + 1,
         lastChunkMs := t.nowReset)
    else s
  }

  /** The mixing loop over a sequence of passes. */
  function MixRun(s: Session, ticks: seq<Tick>): Session
    decreases |ticks|
  {
    if |ticks| == 0 then s else MixRun(MixStep(s, ticks[0]), ticks[1..])
  }

  /** A clock that never runs backwards, starting no earlier than `now`. */
  predicate ClockFrom(now: int, ticks: seq<Tick>)
    decreases |ticks|
  {
    |ticks| == 0
    || (now <= ticks[0].nowCheck <= ticks[0].nowElapsed <= ticks[0].nowReset
        && ClockFrom(ticks[0].nowReset, ticks[1..]))
  }

  /** What the chunks a run enqueued promise: consecutive numbers from the
      counter at the start of the run, their own chunk files, the configured
      duration, non-negative start times, and no overlap between neighbours. */
  predicate RotatedFrom(s: Session, q: seq<ChunkToProcess>)
  {
    && (forall i :: 0 <= i < |q| ==>
          && q[i].chunkNumber == s.chunkCounter + i
          && q[i].filePath == ChunkPath(s, s.chunkCounter + i)
          && q[i].endMs - q[i].startMs == s.chunkDurationSeconds * 1000
          && q[i].startMs >= s.lastChunkMs - s.recordingStartMs)
    && (forall i :: 0 <= i < |q| - 1 ==> q[i].endMs <= q[i + 1].startMs)
  }

  /** The fields the mixing loop never changes. */
  predicate SameSetup(s: Session, r: Session)
  {
    && r.recordingStartMs == s.recordingStartMs && r.chunkDurationSeconds == s.chunkDurationSeconds
    && r.outputDirectory == s.outputDirectory && r.baseFileName == s.baseFileName
    && r.segments == s.segments && r.translations == s.translations
    && r.translatorPresent == s.translatorPresent
  }

  /** How a run of the mixing loop from `s` to `r` may change the session:
      the queue only grows, by chunks that keep the promises of
      `RotatedFrom`, one per step of the counter; the last chunk ends no later
      than the current chunk began; the rest of the session is untouched. */
  predicate RunOutcome(s: Session, r: Session)
  {
    && |r.queue| >= |s.queue| && r.queue[..|s.queue|] == s.queue
    && RotatedFrom(s, r.queue[|s.queue|..])
    && r.chunkCounter == s.chunkCounter + |r.queue| - |s.queue|
    && r.lastChunkMs >= s.lastChunkMs
    && (|r.queue| > |s.queue| ==> r.lastChunkMs - r.recordingStartMs >= r.queue[|r.queue| - 1].endMs)
    && SameSetup(s, r)
  }

  /** The rotation invariants, over any run of the mixing loop under a
      monotone clock: the queue only grows, and what it gains is numbered
      0, 1, 2, ... on from the counter, each chunk lasting exactly the chunk
      duration, starting no earlier than the current chunk did, and starting
      no earlier than its predecessor ended. */
  lemma {:induction false} MixRunRotates(s: Session, ticks: seq<Tick>, now: int)
    requires s.lastChunkMs <= now && ClockFrom(now, ticks)
    ensures RunOutcome(s, MixRun(s, ticks))
    decreases |ticks|
  {
    if |ticks| > 0 {
      var t := ticks[0];
      var s1 := MixStep(s, t);
      MixRunRotates(s1, ticks[1..], t.nowReset);
      var r := MixRun(s1, ticks[1..]);
      assert r == MixRun(s, ticks);
      if RotationDue(s, t) {
        RunOutcomeRotate(s, t, r);
      } else {
        assert s1 == s;
      }
    } else {
      assert s.queue[|s.queue|..] == [];
    }
  }

  lemma RunOutcomeRotate(s: Session, t: Tick, r: Session)
    requires RotationDue(s, t) && s.lastChunkMs <= t.nowCheck <= t.nowElapsed <= t.nowReset
    requires RunOutcome(MixStep(s, t), r)
    ensures RunOutcome(s, r)
  {
    var s1 := MixStep(s, t);
    var c := RotatedChunk(s, t);
    assert s1.queue == s.queue + [c];
    QueueAfterPrefix(s.queue, c, r.queue);
    RotatedFromCons(s, s1, c, r.queue[|s1.queue|..]);
  }

  /** A queue that extends `sq + [c]` extends `sq` by `c` and the rest. */
  lemma QueueAfterPrefix<T>(sq: seq<T>, c: T, rq: seq<T>)
    requires |rq| >= |sq| + 1 && rq[..|sq| + 1] == sq + [c]
    ensures rq[..|sq|] == sq
    ensures rq[|sq|..] == [c] + rq[|sq| + 1..]
  {
    assert rq[..|sq|] == rq[..|sq| + 1][..|sq|];
    assert rq[|sq|..] == [rq[|sq|]] + rq[|sq| + 1..];
  }

  /** One rotation in front of a run keeps the promises of `RotatedFrom`. */
  lemma RotatedFromCons(s: Session, s1: Session, c: ChunkToProcess, q1: seq<ChunkToProcess>)
    requires SameSetup(s, s1) && s1.chunkCounter == s.chunkCounter + 1
    requires c.chunkNumber == s.chunkCounter && c.filePath == ChunkPath(s, s.chunkCounter)
    requires c.endMs - c.startMs == s.chunkDurationSeconds * 1000
    requires c.startMs >= s.lastChunkMs - s.recordingStartMs
    requires s1.lastChunkMs - s1.recordingStartMs >= c.endMs
    requires s1.lastChunkMs >= s.lastChunkMs
    requires RotatedFrom(s1, q1)
    ensures RotatedFrom(s, [c] + q1)
  {
    var q := [c] + q1;
    forall i | 0 <= i < |q|
      ensures q[i].chunkNumber == s.chunkCounter + i
      ensures q[i].filePath == ChunkPath(s, s.chunkCounter + i)
      ensures q[i].endMs - q[i].startMs == s.chunkDurationSeconds * 1000
      ensures q[i].startMs >= s.lastChunkMs - s.recordingStartMs
    {
      if i > 0 {
        assert q[i] == q1[i - 1];
        assert ChunkPath(s1, s1.chunkCounter + (i - 1)) == ChunkPath(s, s.chunkCounter + i);
      }
    }
    forall i | 0 <= i < |q| - 1
      ensures q[i].endMs <= q[i + 1].startMs
    {
      if i > 0 {
        assert q[i] == q1[i - 1] && q[i + 1] == q1[i];
      }
    }
  }

  /** With the session started as `StartRecording` leaves it, every chunk the
      mixing loop enqueues has a non-negative start time. */
  lemma RotatedStartsNonNegative(s: Session, ticks: seq<Tick>, now: int)
    requires s.lastChunkMs >= s.recordingStartMs
    requires s.lastChunkMs <= now && ClockFrom(now, ticks)
    ensures var r := MixRun(s, ticks);
      forall i :: |s.queue| <= i < |r.queue| ==> r.queue[i].startMs >= 0
  {
    MixRunRotates(s, ticks, now);
    var r := MixRun(s, ticks);
    forall i | |s.queue| <= i < |r.queue|
      ensures r.queue[i].startMs >= 0
    {
      assert r.queue[i] == r.queue[|s.queue|..][i - |s.queue|];
    }
  }

  /** The final chunk of `MixAndWrite`, after the loop: queued only when its
      file exists and is larger than 1000 bytes. `tA` is the elapsed-time read
      and `tB` the read of the time since the last rotation, taken only when a
      rotation happened; with no rotation the chunk starts at 0. */
  function FinaliseMix(s: Session, fs: FileSystem, tA: int, tB: int): (r: Session)
    ensures var p := ChunkPath(s, s.chunkCounter);
      if p in fs && fs[p] > 1000 then
        && |r.queue| == |s.queue| + 1 && r.queue[..|s.queue|] == s.queue
        && var c := r.queue[|s.queue|];
        && c.chunkNumber == s.chunkCounter && c.filePath == p
        && c.endMs == tA - s.recordingStartMs
        && (s.chunkCounter <= 0 ==> c.startMs == 0)
        && (s.chunkCounter > 0 ==> c.endMs - c.startMs == tB - s.lastChunkMs)
      else r.queue == s.queue
    ensures r.(queue := s.queue) == s
  {
    var p := ChunkPath(s, s.chunkCounter);
    var finalElapsed := tA - s.recordingStartMs;
    var start := if s.chunkCounter > 0 then finalElapsed - (tB - s.lastChunkMs) else 0;
    if p in fs && fs[p] > 1000 then
      s.(queue := s.queue + [ChunkToProcess(p, s.chunkCounter, start, finalElapsed)])
    else s
  }

  /** The final chunk of `StopRecordingAsync`, when a chunk writer was open:
      queued when its file is larger than 100000 bytes, deleted when it exists
      but is not. Its start is the time of the last rotation and its end the
      time `tEnd` at which the stop was requested. */
  function FinaliseStop(s: Session, fs: FileSystem, writerOpen: bool, tEnd: int): (r: (Session, FileSystem))
    ensures var p := ChunkPath(s, s.chunkCounter);
      && (writerOpen && p in fs && fs[p] > 100000 ==>
            && r.0.queue == s.queue + [ChunkToProcess(p, s.chunkCounter,
                                                      s.lastChunkMs - s.recordingStartMs,
                                                      tEnd - s.recordingStartMs)]
            && r.1 == fs)
      && (writerOpen && p in fs && fs[p] <= 100000 ==>
            r.0 == s && p !in r.1 && forall f :: f in fs && f != p ==> f in r.1 && r.1[f] == fs[f])
      && (!writerOpen || p !in fs ==> r == (s, fs))
    ensures r.1.Keys <= fs.Keys
    ensures r.0.(queue := s.queue) == s
  {
    var p := ChunkPath(s, s.chunkCounter);
    if !writerOpen || p !in fs then (s, fs)
    else if fs[p] > 100000 then
      var elapsed := tEnd - s.recordingStartMs;
      var sinceLast := tEnd - s.lastChunkMs;
      (s.(queue := s.queue + [ChunkToProcess(p, s.chunkCounter, elapsed - sinceLast, elapsed)]), fs)
    else (s, fs - {p})
  }

  /** A translation request `TranslateSegmentAsync` receives. */
  datatype TranslationRequest = TranslationRequest(chunkNumber: int, transcript: string)

  /** `AddTranscriptSegment`: appends the segment; when a translator is
      configured a translation of the transcript is requested. */
  function AddTranscriptSegment(s: Session, chunkNumber: int, startMs: int, endMs: int,
                                transcript: string): (r: (Session, Option<TranslationRequest>))
    ensures r.0.segments == s.segments + [Segment(chunkNumber, startMs, endMs, transcript)]
    ensures r.0.(segments := s.segments) == s
    ensures r.1.Some? <==> s.translatorPresent
    ensures r.1.Some? ==> r.1.value == TranslationRequest(chunkNumber, transcript)
  {
    var s1 := s.(segments := s.segments + [Segment(chunkNumber, startMs, endMs, transcript)]);
    (s1, if s.translatorPresent then Some(TranslationRequest(chunkNumber, transcript)) else None)
  }

  /** Completion of `TranslateSegmentAsync`: the translation is stored under
      the chunk number, replacing an earlier one. */
  function RecordTranslation(s: Session, chunkNumber: int, translated: string): (r: Session)
    ensures chunkNumber in r.translations && r.translations[chunkNumber] == translated
    ensures forall n :: n != chunkNumber ==> (n in r.translations <==> n in s.translations)
    ensures forall n :: n != chunkNumber && n in s.translations ==> r.translations[n] == s.translations[n]
    ensures r.(translations := s.translations) == s
  {
    s.(translations := s.translations[chunkNumber := translated])
  }

  /** `GetTranslatedSegment`. */
  function GetTranslatedSegment(s: Session, chunkNumber: int): (r: string)
    ensures chunkNumber in s.translations ==> r == s.translations[chunkNumber]
    ensures chunkNumber !in s.translations ==> r == ""
  {
    if chunkNumber in s.translations then s.translations[chunkNumber] else ""
  }

  /** `ProcessChunksAsync` once it has the queue to itself. It first waits
      two seconds on the cancellation token; a stop within that wait makes
      the wait throw, which nothing catches, so no chunk is dequeued and the
      queue stays as it is. Otherwise the chunks are dequeued in the order
      they were enqueued and each is announced through
      `ChunkReadyForProcessing`. The handler only starts the transcription,
      so announcing a chunk adds nothing to the store: the segment arrives
      when that transcription completes (`MainView.HandOff`). */
  method ProcessChunks(s: Session, stoppedDuringStartDelay: bool)
    returns (r: Session, announced: seq<ChunkToProcess>)
    ensures stoppedDuringStartDelay ==> r == s && announced == []
    ensures !stoppedDuringStartDelay ==> announced == s.queue && r.queue == []
    ensures r.(queue := s.queue) == s
  {
    r := s;
    announced := [];
    if stoppedDuringStartDelay {
      return;
    }
    while |r.queue| > 0
      invariant s.queue == announced + r.queue
      invariant r.(queue := s.queue) == s
      decreases |r.queue|
    {
      var c := r.queue[0];
      r := r.(queue := r.queue[1..]);
      announced := announced + [c];
    }
  }

  /** `GetFullTranscript`. */
  function GetFullTranscript(s: Session): string
  {
    Render(s.segments, (seg: Segment) => seg.text)
  }

  /** The body `GetTranslatedTranscript` prints for a segment. */
  function TranslatedBody(translations: map<int, string>, seg: Segment): string
  {
    if seg.chunkNumber in translations then translations[seg.chunkNumber]
    else seg.text + " [Translation pending...]"
  }

  /** `GetTranslatedTranscript`. */
  function GetTranslatedTranscript(s: Session): string
  {
    Render(s.segments, (seg: Segment) => TranslatedBody(s.translations, seg))
  }

  /** Both transcripts depend on the order in which segments were added only
      among segments that start at the same time. */
  lemma TranscriptsIgnoreArrivalOrder(s: Session, t: Session)
    requires forall k :: WithStart(s.segments, k) == WithStart(t.segments, k)
    requires s.translations == t.translations
    ensures GetFullTranscript(s) == GetFullTranscript(t)
    ensures GetTranslatedTranscript(s) == GetTranslatedTranscript(t)
  {
    SortDependsOnlyOnGroups(s.segments, t.segments);
  }

  /** With distinct start times, any arrival order of the same segments
      gives the same transcripts. */
  lemma TranscriptsIgnorePermutation(s: Session, t: Session)
    requires DistinctStarts(s.segments) && multiset(s.segments) == multiset(t.segments)
    requires s.translations == t.translations
    ensures GetFullTranscript(s) == GetFullTranscript(t)
    ensures GetTranslatedTranscript(s) == GetTranslatedTranscript(t)
  {
    SortIgnoresArrivalOrder(s.segments, t.segments);
  }

  /** The overlay only replaces bodies: when every segment's translation is
      its own text, the translated transcript is the full transcript. */
  lemma TranslationOverlayOnlyReplacesBodies(s: Session)
    requires forall i :: 0 <= i < |s.segments| ==>
      s.segments[i].chunkNumber in s.translations
      && s.translations[s.segments[i].chunkNumber] == s.segments[i].text
    ensures GetTranslatedTranscript(s) == GetFullTranscript(s)
  {
    RenderBodiesAgree(s.segments, (seg: Segment) => TranslatedBody(s.translations, seg), (seg: Segment) => seg.text);
  }

  /** A translation for a chunk number no segment carries leaves the
      translated transcript as it was. */
  lemma UnusedTranslationInvisible(s: Session, n: int, translated: string)
    requires forall i :: 0 <= i < |s.segments| ==> s.segments[i].chunkNumber != n
    ensures GetTranslatedTranscript(RecordTranslation(s, n, translated)) == GetTranslatedTranscript(s)
  {
    var r := RecordTranslation(s, n, translated);
    RenderBodiesAgree(s.segments, (seg: Segment) => TranslatedBody(r.translations, seg),
                      (seg: Segment) => TranslatedBody(s.translations, seg));
  }

  /** Segments that arrive in start order extend the full transcript at its
      end, one block each. */
  lemma FullTranscriptGrowsAtEnd(s: Session, chunkNumber: int, startMs: int, endMs: int, text: string)
    requires forall i :: 0 <= i < |s.segments| ==> s.segments[i].startMs <= startMs
    ensures var x := Segment(chunkNumber, startMs, endMs, text);
      GetFullTranscript(AddTranscriptSegment(s, chunkNumber, startMs, endMs, text).0)
        == GetFullTranscript(s) + Block(x, text)
  {
    RenderAppendLatest(s.segments, Segment(chunkNumber, startMs, endMs, text), (seg: Segment) => seg.text);
  }

  /** The chunk file of number `n` is named after the recording, and the
      number can be read back from that name. */
  lemma ChunkFileName(s: Session, n: nat)
    requires HasNoSeparator(s.baseFileName)
    ensures FileName(ChunkPath(s, n)) == s.baseFileName + "_rt_chunk_" + NatToString(n) + ".wav"
  {
    var name := s.baseFileName + "_rt_chunk_" + NatToString(n) + ".wav";
    assert HasNoSeparator(name);
    FileNameOfCombine(s.outputDirectory, name);
  }

  lemma CombineInjective(dir: string, x: string, y: string)
    requires Combine(dir, x) == Combine(dir, y)
    ensures x == y
  {
    var k := |Combine(dir, x)| - |x|;
    assert Combine(dir, x)[k..] == x;
    assert Combine(dir, y)[k..] == y;
  }

  /** Distinct chunk numbers name distinct chunk files. */
  lemma ChunkPathInjective(s: Session, m: nat, n: nat)
    requires ChunkPath(s, m) == ChunkPath(s, n)
    ensures m == n
  {
    var a, b := NatToString(m), NatToString(n);
    var pre := s.baseFileName + "_rt_chunk_";
    CombineInjective(s.outputDirectory, pre + a + ".wav", pre + b + ".wav");
    assert |a| == |b|;
    assert a == (pre + a + ".wav")[|pre|..|pre| + |a|];
    assert b == (pre + b + ".wav")[|pre|..|pre| + |b|];
    ParseNatToString(m);
    ParseNatToString(n);
  }

  /** A chunk file, or its transcript companion, is never the recording. */
  lemma ChunkFilesAreNotTheRecording(s: Session, n: nat)
    ensures ChunkPath(s, n) != MainFilePath(s)
    ensures ChunkPath(s, n) + ".txt" != MainFilePath(s)
  {
    var main := MainFilePath(s);
    var c := ChunkPath(s, n);
    var d := s.outputDirectory;
    assert |c| - |s.baseFileName + "_rt_chunk_" + NatToString(n) + ".wav"| == |main| - |s.baseFileName + ".wav"|;
    assert |c| > |main|;
  }

  /** The files `CleanupChunkFiles` deletes: chunk files 0 to the counter,
      and their transcript companions. */
  predicate IsChunkFile(s: Session, p: string)
  {
    exists i :: 0 <= i <= s.chunkCounter && (p == ChunkPath(s, i) || p == ChunkPath(s, i) + ".txt")
  }

  /** `CleanupChunkFiles`: every chunk file and companion up to the counter
      is removed; nothing else on disk changes. */
  method CleanupChunkFiles(s: Session, fs: FileSystem) returns (r: FileSystem)
    ensures forall p :: p in r <==> p in fs && !IsChunkFile(s, p)
    ensures forall p :: p in r ==> r[p] == fs[p]
  {
    r := fs;
    var i := 0;
    while i <= s.chunkCounter
      invariant 0 <= i <= if s.chunkCounter < 0 then 0 else s.chunkCounter + 1
      invariant forall p :: p in r <==> p in fs && !(exists j :: 0 <= j < i && (p == ChunkPath(s, j) || p == ChunkPath(s, j) + ".txt"))
      invariant forall p :: p in r ==> r[p] == fs[p]
      decreases s.chunkCounter + 1 - i
    {
      var chunk := ChunkPath(s, i);
      r := r - {chunk} - {chunk + ".txt"};
      i := i + 1;
    }
  }

  /** Clean-up keeps the recording itself. */
  lemma CleanupKeepsRecording(s: Session, fs: FileSystem, r: FileSystem)
    requires forall p :: p in r <==> p in fs && !IsChunkFile(s, p)
    requires MainFilePath(s) in fs
    ensures MainFilePath(s) in r
  {
    if IsChunkFile(s, MainFilePath(s)) {
      var i :| 0 <= i <= s.chunkCounter && (MainFilePath(s) == ChunkPath(s, i) || MainFilePath(s) == ChunkPath(s, i) + ".txt");
      ChunkFilesAreNotTheRecording(s, i);
    }
  }

  /** The recording path `StopRecordingAsync` returns is the path recording
      was started with, for a `.wav` file in a named directory. */
  lemma MainFileIsRecordingFile(prev: Session, dir: string, name: string, translator: bool,
                                interval: int, t0: int, t1: int)
    requires |dir| > 0 && !IsSeparator(dir[|dir| - 1])
    requires HasNoSeparator(name) && t0 <= t1
    ensures MainFilePath(StartRecording(prev, Combine(dir, name + ".wav"), translator, interval, t0, t1))
         == Combine(dir, name + ".wav")
  {
    var path := Combine(dir, name + ".wav");
    assert name + ".wav" == name + "." + "wav";
    assert HasNoSeparator(name + ".wav");
    DirectoryNameOfCombine(dir, name + ".wav");
    StemAndExtension(dir, name, "wav");
    var s := StartRecording(prev, path, translator, interval, t0, t1);
    assert s.outputDirectory == dir;
    assert s.baseFileName == name;
  }
}
