/** The summary prompts. `Summarizer` (for Ollama) and `OpenRouterHandler`
    carry the same three builders with the same templates, so they are
    defined once here: a whole-transcript prompt, a per-segment prompt and
    a prompt that combines segment summaries. Each is selected by the
    context the user chose, with a general template for any other. */
module Prompts {
  import opened Text

  /** The contexts with a template of their own, and the general one. */
  datatype ContextKind = Meeting | Lecture | Interview | Podcast | General

  /** The `switch` on the (lower-cased) context: exact matches only. */
  function KindOf(context: string): (k: ContextKind)
    ensures k == Meeting <==> context == "meeting"
    ensures k == Lecture <==> context == "lecture"
    ensures k == Interview <==> context == "interview"
    ensures k == Podcast <==> context == "podcast"
  {
    if context == "meeting" then Meeting
    else if context == "lecture" then Lecture
    else if context == "interview" then Interview
    else if context == "podcast" then Podcast
    else General
  }

  /** The context both classes start with. */
  const DefaultContext: string := "meeting"

  /** `SetContext`: the context is stored lower-cased. */
  function SetContext(context: string): (r: string)
    ensures |r| == |context|
    ensures forall i :: 0 <= i < |r| ==> !IsUpperAscii(r[i])
  {
    ToLower(context)
  }

  /** Setting the context twice is setting it once: the stored value is
      already lower-case. */
  lemma SetContextIdempotent(context: string)
    ensures SetContext(SetContext(context)) == SetContext(context)
  {
    ToLowerIdempotent(context);
  }

  /** The context is matched case-insensitively once it has been set. */
  lemma SetContextIgnoresCase(context: string)
    ensures KindOf(SetContext(ToUpper(context))) == KindOf(SetContext(context))
  {
    LowerOfUpper(context);
  }

  // ---------------------------------------------------------------- whole transcript

  /** The part of each whole-transcript template before the transcript. */
  function Intro(k: ContextKind): string
  {
    match k
    case Meeting =>
      "Here is a transcript of a meeting. Please provide a concise summary with:\n"
      + "- Overview of the meeting\n- Key discussion points\n- Decisions made\n"
      + "- Action items and owners\n- Next steps"
    case Lecture =>
      "Here is a transcript of a lecture. Please provide a comprehensive summary with:\n"
      + "- Main topic and learning objectives\n- Key concepts and theories explained\n"
      + "- Important examples or case studies mentioned\n- Key takeaways for students"
    case Interview =>
      "Here is a transcript of an interview. Please provide a summary with:\n"
      + "- Background of the interviewee\n- Main topics discussed\n"
      + "- Key insights and perspectives shared\n- Notable quotes or statements\n"
      + "- Conclusion or key takeaways"
    case Podcast =>
      "Here is a transcript of a podcast episode. Please provide a summary with:\n"
      + "- Episode topic and theme\n- Main discussion points\n"
      + "- Interesting insights or stories shared\n- Guest perspectives (if applicable)\n"
      + "- Key takeaways for listeners"
    case General =>
      "Here is a transcript. Please provide a concise summary with key points and highlights."
  }

  /** The transcript is quoted between triple quotes. */
  const TranscriptOpening: string := "\n\nTranscript:\n\"\"\"\n"
  const TranscriptClosing: string := "\n\"\"\""

  function PromptHead(k: ContextKind): string
  {
    Intro(k) + TranscriptOpening
  }

  /** `BuildPrompt`: the context's template around the transcript. */
  function BuildPrompt(transcript: string, context: string): string
  {
    PromptHead(KindOf(context)) + transcript + TranscriptClosing
  }

  /** The quoted transcript of a whole-transcript prompt, given its context. */
  function QuotedTranscript(prompt: string, context: string): string
  {
    var head := |PromptHead(KindOf(context))|;
    if head + |TranscriptClosing| <= |prompt| then prompt[head..|prompt| - |TranscriptClosing|] else ""
  }

  /** The transcript is embedded verbatim: it can be read back out of the
      prompt, so no two transcripts give the same prompt. */
  lemma PromptQuotesTranscript(transcript: string, context: string)
    ensures QuotedTranscript(BuildPrompt(transcript, context), context) == transcript
  {
    Quoted(PromptHead(KindOf(context)), transcript, TranscriptClosing);
  }

  /** A text placed between a head and a tail is cut back out by their lengths. */
  lemma Quoted(head: string, body: string, tail: string)
    ensures var p := head + body + tail;
      |head| + |tail| <= |p| && p[|head|..|p| - |tail|] == body
  {
    var p := head + body + tail;
    assert p[|head|..|p| - |tail|] == body;
  }

  /** Every context that is not one of the four named ones gets the general
      template; in particular the match is case-sensitive until the context
      has been set through `SetContext`. */
  lemma UnknownContextIsGeneral(transcript: string, context: string)
    requires context != "meeting" && context != "lecture" && context != "interview" && context != "podcast"
    ensures BuildPrompt(transcript, context) == BuildPrompt(transcript, "")
  {
  }

  // ---------------------------------------------------------------- one segment

  /** The `contextType` of `BuildChunkPrompt`: meeting and every unknown
      context share the plain word. */
  function SegmentNoun(context: string): (r: string)
    ensures r == "segment" <==> KindOf(context) == Meeting || KindOf(context) == General
    ensures KindOf(context) == Lecture ==> r == "lecture segment"
    ensures KindOf(context) == Interview ==> r == "interview segment"
    ensures KindOf(context) == Podcast ==> r == "podcast segment"
  {
    if context == "lecture" then "lecture segment"
    else if context == "interview" then "interview segment"
    else if context == "podcast" then "podcast segment"
    else "segment"
  }

  const SegmentOpening: string := "This is segment "

  const SegmentInstruction: string :=
    ". Summarize the key points discussed in this segment. Keep it concise (3-5 bullet points)."

  /** What follows the segment number: the subject, the instruction and
      the quoted transcript. */
  function AfterSegmentNumber(chunkTranscript: string, context: string): (r: string)
    ensures |r| > 0 && r[0] == ' '
  {
    var r := " of a longer " + SegmentNoun(context) + SegmentInstruction + TranscriptOpening
      + chunkTranscript + TranscriptClosing;
    assert r[0] == ' ';
    r
  }

  /** `BuildChunkPrompt`. */
  function BuildChunkPrompt(chunkTranscript: string, chunkNumber: int, context: string): string
  {
    SegmentOpening + IntToString(chunkNumber) + AfterSegmentNumber(chunkTranscript, context)
  }

  /** The digits at the start of a text. */
  function LeadingDigits(s: string): (r: string)
    ensures |r| <= |s| && s[..|r|] == r && IsDigits(r)
    ensures |r| < |s| ==> !IsDigit(s[|r|])
  {
    if |s| == 0 || !IsDigit(s[0]) then "" else [s[0]] + LeadingDigits(s[1..])
  }

  /** The number written at position `k` of a text. */
  function NumberAt(s: string, k: nat): nat
  {
    if k <= |s| then ParseNat(LeadingDigits(s[k..])) else 0
  }

  /** Digits followed by a non-digit read back as those digits. */
  lemma {:induction false} LeadingDigitsOf(d: string, rest: string)
    requires IsDigits(d)
    requires |rest| > 0 && !IsDigit(rest[0])
    ensures LeadingDigits(d + rest) == d
    decreases |d|
  {
    if |d| == 0 {
      assert d + rest == rest;
    } else {
      assert (d + rest)[1..] == d[1..] + rest;
      LeadingDigitsOf(d[1..], rest);
      assert [d[0]] + d[1..] == d;
    }
  }

  /** A number written out and followed by a space reads back as itself. */
  lemma NumberReadsBack(prefix: string, n: nat, rest: string)
    requires |rest| > 0 && rest[0] == ' '
    ensures NumberAt(prefix + NatToString(n) + rest, |prefix|) == n
  {
    var s := prefix + NatToString(n) + rest;
    assert s[|prefix|..] == NatToString(n) + rest;
    LeadingDigitsOf(NatToString(n), rest);
    ParseNatToString(n);
  }

  /** The segment number of a prompt for a non-negative chunk number can be
      read back from the prompt. */
  lemma ChunkPromptNumbersSegment(chunkTranscript: string, chunkNumber: nat, context: string)
    ensures NumberAt(BuildChunkPrompt(chunkTranscript, chunkNumber, context), |SegmentOpening|) == chunkNumber
  {
    NumberReadsBack(SegmentOpening, chunkNumber, AfterSegmentNumber(chunkTranscript, context));
  }

  /** The segment's transcript is the end of the prompt, before the closing
      quotes. */
  lemma ChunkPromptQuotesTranscript(chunkTranscript: string, chunkNumber: int, context: string)
    ensures var p := BuildChunkPrompt(chunkTranscript, chunkNumber, context);
      |chunkTranscript| + |TranscriptClosing| <= |p|
      && p[|p| - |TranscriptClosing| - |chunkTranscript|..|p| - |TranscriptClosing|] == chunkTranscript
  {
    var a := " of a longer " + SegmentNoun(context) + SegmentInstruction + TranscriptOpening;
    var b := SegmentOpening + IntToString(chunkNumber);
    Quoted(b + a, chunkTranscript, TranscriptClosing);
    Reassociate(b, a, chunkTranscript, TranscriptClosing);
  }

  lemma Reassociate(a: string, b: string, c: string, d: string)
    ensures a + (b + c + d) == a + b + c + d
  {
  }

  // ---------------------------------------------------------------- combined summaries

  /** The subject named after "segments" in the combining template. */
  function Subject(k: ContextKind): string
  {
    match k
    case Meeting => " of a long meeting"
    case Lecture => " of a long lecture"
    case Interview => " of a long interview"
    case Podcast => " of a long podcast episode"
    case General => ""
  }

  /** The five points the final summary must cover. */
  function Outline(k: ContextKind): string
  {
    match k
    case Meeting =>
      "1. Overall meeting overview and purpose\n"
      + "2. Main topics discussed (organized chronologically or by theme)\n"
      + "3. Key decisions made\n4. Action items and owners\n5. Next steps and follow-ups"
    case Lecture =>
      "1. Lecture title and main topic\n2. Key concepts and theories covered (in order presented)\n"
      + "3. Important examples or demonstrations\n4. Critical insights for students\n"
      + "5. Summary of key takeaways"
    case Interview =>
      "1. Interview overview and context\n2. Main topics covered\n"
      + "3. Key insights from the interviewee\n4. Notable quotes or memorable moments\n"
      + "5. Overall conclusions"
    case Podcast =>
      "1. Episode overview and main theme\n2. Key discussion topics (in order)\n"
      + "3. Interesting stories or insights shared\n4. Guest contributions (if applicable)\n"
      + "5. Main takeaways for listeners"
    case General =>
      "1. Overall overview\n2. Main topics discussed\n3. Key insights\n4. Important points\n5. Takeaways"
  }

  /** What the closing sentence says the summary covers. */
  function Whole(k: ContextKind): string
  {
    match k
    case Meeting => " of the entire meeting"
    case Lecture => " of the entire lecture"
    case Interview => " of the entire interview"
    case Podcast => " of the entire podcast"
    case General => ""
  }

  const CombinedOpening: string := "I have summaries from "

  /** The part of the combining template between the count and the
      summaries. */
  function CombinedBody(k: ContextKind): (r: string)
    ensures |r| > 0 && r[0] == ' '
  {
    var r := " segments" + Subject(k)
      + ". Please create a comprehensive final summary that includes:\n\n" + Outline(k)
      + "\n\nHere are the segment summaries:\n\n";
    assert r[0] == ' ';
    r
  }

  function CombinedTail(k: ContextKind): string
  {
    "\n\nProvide a well-structured, comprehensive summary" + Whole(k) + "."
  }

  /** `BuildCombinedPrompt`. */
  function BuildCombinedPrompt(combinedSummaries: string, totalChunks: int, context: string): string
  {
    CombinedOpening + IntToString(totalChunks)
      + (CombinedBody(KindOf(context)) + combinedSummaries + CombinedTail(KindOf(context)))
  }

  /** The combining prompt states the number of segments, which reads back
      from the prompt for a non-negative count. */
  lemma CombinedPromptCountsSegments(combinedSummaries: string, totalChunks: nat, context: string)
    ensures NumberAt(BuildCombinedPrompt(combinedSummaries, totalChunks, context), |CombinedOpening|) == totalChunks
  {
    var k := KindOf(context);
    var rest := CombinedBody(k) + combinedSummaries + CombinedTail(k);
    NumberReadsBack(CombinedOpening, totalChunks, rest);
  }

  /** The segment summaries are embedded verbatim between the context's body
      and tail. */
  lemma CombinedPromptQuotesSummaries(combinedSummaries: string, totalChunks: int, context: string)
    ensures var p := BuildCombinedPrompt(combinedSummaries, totalChunks, context);
      var k := KindOf(context);
      var h := |CombinedOpening + IntToString(totalChunks) + CombinedBody(k)|;
      |combinedSummaries| + |CombinedTail(k)| <= |p| - h
      && p[h..|p| - |CombinedTail(k)|] == combinedSummaries
  {
    var k := KindOf(context);
    var a := CombinedOpening + IntToString(totalChunks);
    Quoted(a + CombinedBody(k), combinedSummaries, CombinedTail(k));
    Reassociate(a, CombinedBody(k), combinedSummaries, CombinedTail(k));
  }
}
