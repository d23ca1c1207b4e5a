/** The pure helpers of the main window: language names, the live
    transcript view with its translation fallback, the hand-off of a
    finished chunk to the transcript store, and the export text. */
module MainView {
  import opened Wrappers
  import opened Text
  import opened Transcript
  import opened RealTime

  /** The eight target languages the window knows by name. */
  function KnownLanguage(code: string): (r: Option<string>)
  {
    if code == "EN-US" then Some("English")
    else if code == "ES" then Some("Spanish")
    else if code == "FR" then Some("French")
    else if code == "DE" then Some("German")
    else if code == "IT" then Some("Italian")
    else if code == "JA" then Some("Japanese")
    else if code == "KO" then Some("Korean")
    else if code == "ZH" then Some("Chinese")
    else None
  }

  /** The code of a language name, the inverse lookup. */
  function CodeOfName(name: string): Option<string>
  {
    if name == "English" then Some("EN-US")
    else if name == "Spanish" then Some("ES")
    else if name == "French" then Some("FR")
    else if name == "German" then Some("DE")
    else if name == "Italian" then Some("IT")
    else if name == "Japanese" then Some("JA")
    else if name == "Korean" then Some("KO")
    else if name == "Chinese" then Some("ZH")
    else None
  }

  /** `GetLanguageName`: the name of a known code, any other code as it is. */
  function GetLanguageName(code: string): (r: string)
    ensures KnownLanguage(code).Some? ==> r == KnownLanguage(code).value
    ensures KnownLanguage(code).None? ==> r == code
  {
    match KnownLanguage(code)
    case Some(name) => name
    case None => code
  }

  /** No two known codes share a name: the name leads back to the code. */
  lemma LanguageNamesIdentifyCodes(code: string)
    requires KnownLanguage(code).Some?
    ensures CodeOfName(GetLanguageName(code)) == Some(code)
  {
  }

  /** A code is shown unchanged exactly when it is not one of the eight. */
  lemma UnknownCodesShownAsIs(code: string)
    ensures GetLanguageName(code) == code <==> KnownLanguage(code).None?
  {
  }

  const TranslatingMarker: string := " [Translating...]"

  /** The body the live view shows for a segment in translation mode: the
      stored translation unless it is missing or empty. */
  function LiveTranslatedBody(s: Session, seg: Segment): (r: string)
    ensures GetTranslatedSegment(s, seg.chunkNumber) != "" ==> r == s.translations[seg.chunkNumber]
    ensures GetTranslatedSegment(s, seg.chunkNumber) == "" ==> r == seg.text + TranslatingMarker
  {
    var t := GetTranslatedSegment(s, seg.chunkNumber);
    if t == "" then seg.text + TranslatingMarker else t
  }

  /** What `RealTimeTranscriber_TranscriptUpdated` shows: the transcript
      text, and in translation mode the status line naming the target
      language. */
  datatype LiveView = LiveView(text: string, translationStatus: Option<string>)

  function RenderLive(s: Session, showingTranslation: bool, translatorPresent: bool,
                      targetLanguage: string): (r: LiveView)
    ensures r.translationStatus.Some? <==> showingTranslation && translatorPresent
    ensures r.translationStatus.Some? ==>
      r.translationStatus.value == "Translated to " + GetLanguageName(targetLanguage)
  {
    if showingTranslation && translatorPresent then
      LiveView(Render(s.segments, (seg: Segment) => LiveTranslatedBody(s, seg)),
               Some("Translated to " + GetLanguageName(targetLanguage)))
    else
      LiveView(Render(s.segments, (seg: Segment) => seg.text), None)
  }

  /** Outside translation mode the live view is the full transcript. */
  lemma LiveOriginalIsFullTranscript(s: Session, translatorPresent: bool, targetLanguage: string)
    ensures RenderLive(s, false, translatorPresent, targetLanguage).text == GetFullTranscript(s)
    ensures RenderLive(s, true, false, targetLanguage).text == GetFullTranscript(s)
  {
  }

  /** In translation mode the live view agrees with the translated
      transcript once every segment has a non-empty translation; only the
      marker of a pending translation differs between the two. */
  lemma LiveTranslationMatchesTranslatedTranscript(s: Session, targetLanguage: string)
    requires forall i :: 0 <= i < |s.segments| ==>
      s.segments[i].chunkNumber in s.translations && s.translations[s.segments[i].chunkNumber] != ""
    ensures RenderLive(s, true, true, targetLanguage).text == GetTranslatedTranscript(s)
  {
    RenderBodiesAgree(s.segments, (seg: Segment) => LiveTranslatedBody(s, seg),
                      (seg: Segment) => TranslatedBody(s.translations, seg));
  }

  /** A translation stored as empty text is shown as pending in the live
      view, but as the empty text in the translated transcript. */
  lemma EmptyTranslationShownAsPending(s: Session, seg: Segment)
    requires seg.chunkNumber in s.translations && s.translations[seg.chunkNumber] == ""
    ensures LiveTranslatedBody(s, seg) == seg.text + TranslatingMarker
    ensures TranslatedBody(s.translations, seg) == ""
  {
  }

  /** What a completed chunk transcription leaves: the segment store, the
      files on disk and the translation request `AddTranscriptSegment`
      makes, if any. */
  datatype Completion = Completion(session: Session, fs: FileSystem, request: Option<TranslationRequest>)

  /** `RealTimeTranscriber_ChunkReadyForProcessing` once the transcription it
      awaits has completed, with `transcript` `None` when it threw. The
      segment is stored under the chunk's own number and times, then the
      chunk file and the `.txt` beside it are deleted. A failed
      transcription is only logged: the store is unchanged and the chunk
      file stays on disk. */
  function HandOff(s: Session, fs: FileSystem, chunk: ChunkToProcess, transcript: Option<string>): (r: Completion)
    ensures transcript.None? ==> r == Completion(s, fs, None)
    ensures transcript.Some? ==>
      && r.session.segments == s.segments + [Segment(chunk.chunkNumber, chunk.startMs, chunk.endMs, transcript.value)]
      && r.session.(segments := s.segments) == s
      && (r.request.Some? <==> s.translatorPresent)
      && (r.request.Some? ==> r.request.value == TranslationRequest(chunk.chunkNumber, transcript.value))
      && chunk.filePath !in r.fs && chunk.filePath + ".txt" !in r.fs
      && (forall p :: p != chunk.filePath && p != chunk.filePath + ".txt" ==> (p in r.fs <==> p in fs))
      && (forall p :: p in r.fs ==> p in fs && r.fs[p] == fs[p])
  {
    match transcript
    case Some(text) =>
      var added := AddTranscriptSegment(s, chunk.chunkNumber, chunk.startMs, chunk.endMs, text);
      Completion(added.0, fs - {chunk.filePath, chunk.filePath + ".txt"}, added.1)
    case None => Completion(s, fs, None)
  }

  /** The segments the completed transcriptions of `done` add, in the order
      they completed: one per successful transcription, with its chunk's
      number and times. */
  function Transcribed(done: seq<ChunkToProcess>, transcribe: ChunkToProcess -> Option<string>): seq<Segment>
    decreases |done|
  {
    if |done| == 0 then []
    else
      var rest := Transcribed(done[..|done| - 1], transcribe);
      var c := done[|done| - 1];
      match transcribe(c)
      case Some(text) => rest + [Segment(c.chunkNumber, c.startMs, c.endMs, text)]
      case None => rest
  }

  /** The files the completed transcriptions of `done` delete: each
      transcribed chunk's file and the `.txt` beside it. */
  function DeletedBy(done: seq<ChunkToProcess>, transcribe: ChunkToProcess -> Option<string>): set<string>
  {
    (set c | c in done && transcribe(c).Some? :: c.filePath)
      + (set c | c in done && transcribe(c).Some? :: c.filePath + ".txt")
  }

  /** The store and the disk once the transcriptions of the announced chunks
      in `done` have completed, in the order of `done`. */
  function CompleteAll(s: Session, fs: FileSystem, done: seq<ChunkToProcess>,
                       transcribe: ChunkToProcess -> Option<string>): (Session, FileSystem)
    decreases |done|
  {
    if |done| == 0 then (s, fs)
    else
      var prev := CompleteAll(s, fs, done[..|done| - 1], transcribe);
      var c := done[|done| - 1];
      var r := HandOff(prev.0, prev.1, c, transcribe(c));
      (r.session, r.fs)
  }

  /** Completions append their segments in completion order and change
      nothing else in the store. */
  lemma {:induction false} CompletionsAppendInOrder(s: Session, fs: FileSystem, done: seq<ChunkToProcess>,
                                                    transcribe: ChunkToProcess -> Option<string>)
    ensures CompleteAll(s, fs, done, transcribe).0.segments == s.segments + Transcribed(done, transcribe)
    ensures CompleteAll(s, fs, done, transcribe).0.(segments := s.segments) == s
    decreases |done|
  {
    if |done| > 0 {
      CompletionsAppendInOrder(s, fs, done[..|done| - 1], transcribe);
    }
  }

  /** Completions delete exactly the files of the transcribed chunks. */
  lemma {:induction false} CompletionsDeleteTranscribedFiles(s: Session, fs: FileSystem, done: seq<ChunkToProcess>,
                                                             transcribe: ChunkToProcess -> Option<string>)
    ensures CompleteAll(s, fs, done, transcribe).1 == fs - DeletedBy(done, transcribe)
    decreases |done|
  {
    if |done| > 0 {
      var init := done[..|done| - 1];
      var c := done[|done| - 1];
      CompletionsDeleteTranscribedFiles(s, fs, init, transcribe);
      DeletedBySnoc(init, c, transcribe);
      assert init + [c] == done;
    }
  }

  /** One more completion deletes its chunk's two files when it succeeded. */
  lemma DeletedBySnoc(init: seq<ChunkToProcess>, c: ChunkToProcess, transcribe: ChunkToProcess -> Option<string>)
    ensures DeletedBy(init + [c], transcribe) ==
      DeletedBy(init, transcribe) + (if transcribe(c).Some? then {c.filePath, c.filePath + ".txt"} else {})
  {
    var done := init + [c];
    assert forall x :: x in done <==> x in init || x == c;
  }

  lemma {:induction false} TranscribedAppend(p: seq<ChunkToProcess>, q: seq<ChunkToProcess>,
                                             transcribe: ChunkToProcess -> Option<string>)
    ensures Transcribed(p + q, transcribe) == Transcribed(p, transcribe) + Transcribed(q, transcribe)
    decreases |q|
  {
    if |q| > 0 {
      var init := q[..|q| - 1];
      var c := q[|q| - 1];
      TranscribedAppend(p, init, transcribe);
      assert (p + q)[..|p + q| - 1] == p + init;
      assert (p + q)[|p + q| - 1] == c;
      match transcribe(c)
      case Some(text) =>
        var seg := Segment(c.chunkNumber, c.startMs, c.endMs, text);
        calc {
          Transcribed(p + q, transcribe);
          Transcribed(p + init, transcribe) + [seg];
          Transcribed(p, transcribe) + Transcribed(init, transcribe) + [seg];
          Transcribed(p, transcribe) + (Transcribed(init, transcribe) + [seg]);
        }
      case None =>
    } else {
      assert p + q == p;
    }
  }

  /** The segments completions add depend only on which chunks completed,
      not on the order: completions of the same chunks give the same
      segments, as multisets. */
  lemma {:induction false} TranscribedPermutation(p: seq<ChunkToProcess>, q: seq<ChunkToProcess>,
                                                  transcribe: ChunkToProcess -> Option<string>)
    requires multiset(p) == multiset(q)
    ensures multiset(Transcribed(p, transcribe)) == multiset(Transcribed(q, transcribe))
    decreases |p|
  {
    if |p| > 0 {
      var init := p[..|p| - 1];
      var x := p[|p| - 1];
      MultisetDropLast(p);
      assert x in multiset(q);
      var i :| 0 <= i < |q| && q[i] == x;
      MultisetRemoveAt(q, i);
      TranscribedPermutation(init, q[..i] + q[i + 1..], transcribe);
      TranscribedMoveOut(q[..i], x, q[i + 1..], q, transcribe);
      TranscribedMoveOut(init, x, [], p, transcribe);
      assert init + [] == init;
    } else {
      assert |q| == |multiset(q)| == |multiset(p)| == 0;
    }
  }

  /** Taking one chunk out of the completions takes its segment, if any,
      out of the segments they add. */
  lemma TranscribedMoveOut(a: seq<ChunkToProcess>, x: ChunkToProcess, b: seq<ChunkToProcess>,
                           whole: seq<ChunkToProcess>, transcribe: ChunkToProcess -> Option<string>)
    requires whole == a + [x] + b
    ensures multiset(Transcribed(whole, transcribe))
         == multiset(Transcribed(a + b, transcribe)) + multiset(Transcribed([x], transcribe))
  {
    TranscribedAppend(a + [x], b, transcribe);
    TranscribedAppend(a, [x], transcribe);
    TranscribedAppend(a, b, transcribe);
  }

  lemma MultisetDropLast<T>(p: seq<T>)
    requires |p| > 0
    ensures p == p[..|p| - 1] + [p[|p| - 1]] + []
    ensures multiset(p[..|p| - 1]) == multiset(p) - multiset{p[|p| - 1]}
  {
    assert p == p[..|p| - 1] + [p[|p| - 1]];
  }

  lemma MultisetRemoveAt<T>(q: seq<T>, i: int)
    requires 0 <= i < |q|
    ensures q == q[..i] + [q[i]] + q[i + 1..]
    ensures multiset(q[..i] + q[i + 1..]) == multiset(q) - multiset{q[i]}
  {
    assert q == q[..i] + [q[i]] + q[i + 1..];
  }

  /** Completions of the same chunks in any order delete the same files. */
  lemma DeletedByPermutation(p: seq<ChunkToProcess>, q: seq<ChunkToProcess>,
                             transcribe: ChunkToProcess -> Option<string>)
    requires multiset(p) == multiset(q)
    ensures DeletedBy(p, transcribe) == DeletedBy(q, transcribe)
  {
    forall x
      ensures x in p <==> x in q
    {
      assert x in p <==> x in multiset(p);
      assert x in q <==> x in multiset(q);
    }
  }

  /** The window reads the transcripts while transcriptions may still be
      running, and they complete in any order. What it reads depends only
      on which chunks have completed: completions of the same chunks in
      another order give the same full and translated transcripts (the
      segments' start times being distinct) and delete the same files. */
  lemma CompletionOrderIrrelevant(s: Session, fs: FileSystem, p: seq<ChunkToProcess>, q: seq<ChunkToProcess>,
                                  transcribe: ChunkToProcess -> Option<string>)
    requires multiset(p) == multiset(q)
    requires DistinctStarts(s.segments + Transcribed(p, transcribe))
    ensures GetFullTranscript(CompleteAll(s, fs, p, transcribe).0) == GetFullTranscript(CompleteAll(s, fs, q, transcribe).0)
    ensures GetTranslatedTranscript(CompleteAll(s, fs, p, transcribe).0)
         == GetTranslatedTranscript(CompleteAll(s, fs, q, transcribe).0)
    ensures CompleteAll(s, fs, p, transcribe).1 == CompleteAll(s, fs, q, transcribe).1
  {
    var sp := CompleteAll(s, fs, p, transcribe).0;
    var sq := CompleteAll(s, fs, q, transcribe).0;
    CompletionsAppendInOrder(s, fs, p, transcribe);
    CompletionsAppendInOrder(s, fs, q, transcribe);
    TranscribedPermutation(p, q, transcribe);
    assert multiset(sp.segments) == multiset(sq.segments);
    assert sp.translations == s.translations == sq.translations;
    TranscriptsIgnorePermutation(sp, sq);
    CompletionsDeleteTranscribedFiles(s, fs, p, transcribe);
    CompletionsDeleteTranscribedFiles(s, fs, q, transcribe);
    DeletedByPermutation(p, q, transcribe);
  }

  /** The dashed rule under each heading of the export. */
  function Rule(): string
  {
    Repeat('-', 60)
  }

  /** The text before the transcript in an export made at `generated`. */
  function ExportHead(generated: string): string
  {
    "MEETING SUMMARY\n" + "Generated: " + generated + "\n\n" + "TRANSCRIPT:\n" + Rule() + "\n"
  }

  /** The text between the transcript and the summary. */
  function SummaryHeading(): string
  {
    "\n\n" + "AI SUMMARY:\n" + Rule() + "\n"
  }

  /** `ExportButton_Click`'s file content; `generated` is the formatted
      time of the export. */
  function ExportText(generated: string, transcript: string, summary: string): string
  {
    ExportHead(generated) + transcript + SummaryHeading() + summary + "\n"
  }

  /** The export holds the transcript and the summary verbatim, at the
      places its layout fixes, and ends with a newline. */
  lemma ExportLayout(generated: string, transcript: string, summary: string)
    ensures var e := ExportText(generated, transcript, summary);
      var t := |ExportHead(generated)|;
      var u := t + |transcript| + |SummaryHeading()|;
      && |e| == u + |summary| + 1
      && e[t..t + |transcript|] == transcript
      && e[t + |transcript|..u] == SummaryHeading()
      && e[u..u + |summary|] == summary
      && e[|e| - 1] == '\n'
  {
    ConcatSlices(ExportHead(generated), transcript, SummaryHeading(), summary, "\n");
  }

  /** Where the parts of a five-part concatenation sit. */
  lemma ConcatSlices<T>(a: seq<T>, b: seq<T>, c: seq<T>, d: seq<T>, e: seq<T>)
    ensures var w := a + b + c + d + e;
      && |w| == |a| + |b| + |c| + |d| + |e|
      && w[|a|..|a| + |b|] == b
      && w[|a| + |b|..|a| + |b| + |c|] == c
      && w[|a| + |b| + |c|..|a| + |b| + |c| + |d|] == d
      && w[|a| + |b| + |c| + |d|..] == e
  {
    var w := a + b + c + d + e;
    assert w[|a|..|a| + |b|] == b;
    assert w[|a| + |b|..|a| + |b| + |c|] == c;
    assert w[|a| + |b| + |c|..|a| + |b| + |c| + |d|] == d;
    assert w[|a| + |b| + |c| + |d|..] == e;
  }
}
