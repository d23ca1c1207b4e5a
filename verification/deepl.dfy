/** `DeepLTranslator`: one text is translated by one request to the DeepL
    service, and a long transcript is translated paragraph by paragraph.
    The service itself is a parameter: what it answers to one request. */
module DeepL {
  import opened Wrappers
  import opened Text

  /** The paragraph separator of `TranslateBatchAsync`, a blank line. */
  const ParagraphBreak: string := ['\n', '\n']

  /** What the service answers to one request: an error status with its
      body, or the `translations` array, whose entries may hold no text. */
  datatype Reply =
    | ErrorStatus(status: string, body: string)
    | Translations(texts: seq<Option<string>>)

  /** `TranslateAsync`: blank text is returned as it is, without a request;
      an error status becomes the error the caller sees; otherwise the first
      translation, falling back to the input when the array is empty or the
      entry holds no text. */
  function TranslateWith(text: string, reply: Reply): (r: Result<string>)
    ensures IsBlank(text) ==> r == Success(text)
    ensures !IsBlank(text) && reply.ErrorStatus? ==>
      r == Failure("DeepL API error (" + reply.status + "): " + reply.body)
    ensures r.Failure? ==> reply.ErrorStatus?
    ensures r.Success? && r.value != text ==>
      !IsBlank(text) && reply.Translations? && |reply.texts| > 0 && reply.texts[0] == Some(r.value)
  {
    if IsBlank(text) then Success(text)
    else
      match reply
      case ErrorStatus(status, body) => Failure("DeepL API error (" + status + "): " + body)
      case Translations(texts) =>
        if |texts| > 0 then Success(texts[0].GetOr(text)) else Success(text)
  }

  /** An answer without any translation leaves the text as it was. */
  lemma EmptyAnswerKeepsText(text: string)
    ensures TranslateWith(text, Translations([])) == Success(text)
    ensures TranslateWith(text, Translations([None])) == Success(text)
  {
  }

  /** Whether the blank line starts at position `i` of `s`. */
  predicate BreakAt(s: string, i: int)
  {
    0 <= i && i + 1 < |s| && s[i] == '\n' && s[i + 1] == '\n'
  }

  /** `s.Split("\n\n")`: scanning from the left, every blank line not
      overlapping an earlier one ends a piece; empty pieces included. */
  function SplitBreaks(s: string): (r: seq<string>)
    ensures |r| >= 1
    decreases |s|
  {
    if |s| == 0 then [""]
    else if BreakAt(s, 0) then [""] + SplitBreaks(s[2..])
    else
      var rest := SplitBreaks(s[1..]);
      [[s[0]] + rest[0]] + rest[1..]
  }

  /** `StringSplitOptions.RemoveEmptyEntries`: the non-empty pieces, in order. */
  function RemoveEmpty(pieces: seq<string>): (r: seq<string>)
    ensures forall k :: 0 <= k < |r| ==> r[k] != ""
    ensures |r| <= |pieces|
    decreases |pieces|
  {
    if |pieces| == 0 then []
    else if pieces[0] == "" then RemoveEmpty(pieces[1..])
    else [pieces[0]] + RemoveEmpty(pieces[1..])
  }

  /** The paragraphs `TranslateBatchAsync` translates. */
  function Paragraphs(text: string): seq<string>
  {
    RemoveEmpty(SplitBreaks(text))
  }

  /** A piece holds no blank line. */
  predicate NoBreak(s: string)
  {
    forall i :: 0 <= i < |s| ==> !BreakAt(s, i)
  }

  predicate EndsInNewline(s: string)
  {
    |s| > 0 && s[|s| - 1] == '\n'
  }

  /** The shape of a split: no piece holds a blank line, and no piece but the
      last ends in a newline (that newline would have started an earlier
      blank line). */
  predicate WellSplit(pieces: seq<string>)
  {
    && (forall k :: 0 <= k < |pieces| ==> NoBreak(pieces[k]))
    && (forall k :: 0 <= k < |pieces| - 1 ==> !EndsInNewline(pieces[k]))
  }

  /** `Join` distributes over a leading character of its first part. */
  lemma JoinConsHead(c: char, parts: seq<string>, sep: string)
    requires |parts| > 0
    ensures Join([[c] + parts[0]] + parts[1..], sep) == [c] + Join(parts, sep)
  {
    var ps := [[c] + parts[0]] + parts[1..];
    assert ps[1..] == parts[1..];
  }

  /** Joining the pieces with the separator gives back the text. */
  lemma {:induction false} JoinSplitBreaks(s: string)
    ensures Join(SplitBreaks(s), ParagraphBreak) == s
    decreases |s|
  {
    if |s| == 0 {
    } else if BreakAt(s, 0) {
      JoinSplitBreaks(s[2..]);
      var rest := SplitBreaks(s[2..]);
      assert ([""] + rest)[1..] == rest;
      assert s == ParagraphBreak + s[2..];
    } else {
      JoinSplitBreaks(s[1..]);
      JoinConsHead(s[0], SplitBreaks(s[1..]), ParagraphBreak);
      assert s == [s[0]] + s[1..];
    }
  }

  /** Every split has that shape. */
  lemma {:induction false} SplitBreaksWellSplit(s: string)
    ensures WellSplit(SplitBreaks(s))
    decreases |s|
  {
    if |s| == 0 {
    } else if BreakAt(s, 0) {
      SplitBreaksWellSplit(s[2..]);
      var rest := SplitBreaks(s[2..]);
      var r := [""] + rest;
      forall k | 0 <= k < |r|
        ensures NoBreak(r[k])
      {
        if k > 0 { assert r[k] == rest[k - 1]; }
      }
      forall k | 0 <= k < |r| - 1
        ensures !EndsInNewline(r[k])
      {
        if k > 0 { assert r[k] == rest[k - 1]; }
      }
    } else {
      SplitBreaksWellSplit(s[1..]);
      var rest := SplitBreaks(s[1..]);
      var head := [s[0]] + rest[0];
      var r := [head] + rest[1..];
      FirstPieceShape(s);
      forall k | 0 <= k < |r|
        ensures NoBreak(r[k])
      {
        if k > 0 { assert r[k] == rest[k]; }
      }
      forall k | 0 <= k < |r| - 1
        ensures !EndsInNewline(r[k])
      {
        if k > 0 {
          assert r[k] == rest[k];
        } else {
          assert |rest| > 1;
          assert !EndsInNewline(rest[0]);
        }
      }
    }
  }

  /** Extending the first piece by a character that does not start a blank
      line keeps it free of blank lines. */
  lemma FirstPieceShape(s: string)
    requires |s| > 0 && !BreakAt(s, 0)
    requires WellSplit(SplitBreaks(s[1..]))
    ensures NoBreak([s[0]] + SplitBreaks(s[1..])[0])
    ensures |SplitBreaks(s[1..])| > 1 ==> !EndsInNewline([s[0]] + SplitBreaks(s[1..])[0])
  {
    var rest := SplitBreaks(s[1..]);
    var head := [s[0]] + rest[0];
    FirstPieceStart(s[1..]);
    forall i | 0 <= i < |head|
      ensures !BreakAt(head, i)
    {
      if i > 0 {
        assert !BreakAt(rest[0], i - 1);
      } else if |head| > 1 {
        assert head[1] == s[1];
      }
    }
    if |rest| > 1 && |rest[0]| == 0 {
      assert BreakAt(s[1..], 0);
      assert s[1] == '\n';
      assert s[0] != '\n';
    }
  }

  /** A text's first piece is a prefix of it, followed by the blank line when
      more pieces follow; so an empty first piece among several means the text
      starts with a blank line. */
  lemma {:induction false} FirstPieceStart(s: string)
    ensures |SplitBreaks(s)[0]| <= |s| && s[..|SplitBreaks(s)[0]|] == SplitBreaks(s)[0]
    ensures |SplitBreaks(s)| > 1 ==> BreakAt(s, |SplitBreaks(s)[0]|)
    decreases |s|
  {
    if |s| == 0 {
    } else if BreakAt(s, 0) {
    } else {
      FirstPieceStart(s[1..]);
    }
  }

  /** Splitting `p + "\n\n" + rest`, for a piece `p` without a blank line and
      not ending in a newline, yields `p` followed by the pieces of `rest`. */
  lemma {:induction false} SplitBreaksCons(p: string, rest: string)
    requires NoBreak(p) && !EndsInNewline(p)
    ensures SplitBreaks(p + ParagraphBreak + rest) == [p] + SplitBreaks(rest)
    decreases |p|
  {
    var s := p + ParagraphBreak + rest;
    if |p| == 0 {
      assert BreakAt(s, 0);
      assert s[2..] == rest;
    } else {
      assert !BreakAt(s, 0) by {
        if |p| == 1 {
          assert s[0] == p[0] && p[0] != '\n';
        } else {
          assert !BreakAt(p, 0);
        }
      }
      assert s[1..] == p[1..] + ParagraphBreak + rest;
      assert NoBreak(p[1..]) by {
        forall i | 0 <= i < |p[1..]|
          ensures !BreakAt(p[1..], i)
        {
          assert !BreakAt(p, i + 1);
        }
      }
      SplitBreaksCons(p[1..], rest);
      assert [p[0]] + p[1..] == p;
    }
  }

  /** A piece without a blank line splits into itself. */
  lemma {:induction false} SplitBreaksFree(p: string)
    requires NoBreak(p)
    ensures SplitBreaks(p) == [p]
    decreases |p|
  {
    if |p| > 0 {
      assert !BreakAt(p, 0);
      assert NoBreak(p[1..]) by {
        forall i | 0 <= i < |p[1..]|
          ensures !BreakAt(p[1..], i)
        {
          assert !BreakAt(p, i + 1);
        }
      }
      SplitBreaksFree(p[1..]);
      assert [p[0]] + p[1..] == p;
    }
  }

  /** Splitting undoes joining, for pieces shaped as a split leaves them. */
  lemma {:induction false} SplitJoin(pieces: seq<string>)
    requires |pieces| > 0 && WellSplit(pieces)
    ensures SplitBreaks(Join(pieces, ParagraphBreak)) == pieces
    decreases |pieces|
  {
    if |pieces| == 1 {
      SplitBreaksFree(pieces[0]);
    } else {
      assert WellSplit(pieces[1..]) by {
        forall k | 0 <= k < |pieces[1..]|
          ensures NoBreak(pieces[1..][k])
        {
          assert pieces[1..][k] == pieces[k + 1];
        }
      }
      SplitJoin(pieces[1..]);
      SplitBreaksCons(pieces[0], Join(pieces[1..], ParagraphBreak));
      assert [pieces[0]] + pieces[1..] == pieces;
    }
  }

  /** Removing the empty pieces keeps the shape of a split. */
  lemma {:induction false} RemoveEmptyWellSplit(pieces: seq<string>)
    requires WellSplit(pieces)
    ensures WellSplit(RemoveEmpty(pieces))
    ensures forall k :: 0 <= k < |RemoveEmpty(pieces)| ==> RemoveEmpty(pieces)[k] in pieces
    decreases |pieces|
  {
    if |pieces| > 0 {
      assert WellSplit(pieces[1..]) by {
        forall k | 0 <= k < |pieces[1..]|
          ensures NoBreak(pieces[1..][k])
        {
          assert pieces[1..][k] == pieces[k + 1];
        }
      }
      RemoveEmptyWellSplit(pieces[1..]);
      var tail := RemoveEmpty(pieces[1..]);
      if pieces[0] != "" {
        var r := [pieces[0]] + tail;
        forall k | 0 <= k < |r| - 1
          ensures !EndsInNewline(r[k])
        {
          if k == 0 {
            assert |tail| <= |pieces[1..]|;
          } else {
            assert r[k] == tail[k - 1];
          }
        }
        forall k | 0 <= k < |r|
          ensures r[k] in pieces
        {
          if k > 0 { assert r[k] == tail[k - 1]; assert tail[k - 1] in pieces[1..]; }
        }
      } else {
        forall k | 0 <= k < |tail|
          ensures tail[k] in pieces
        {
          assert tail[k] in pieces[1..];
        }
      }
    }
  }

  /** Non-empty pieces are kept as they are. */
  lemma {:induction false} RemoveEmptyOfNonEmpty(pieces: seq<string>)
    requires forall k :: 0 <= k < |pieces| ==> pieces[k] != ""
    ensures RemoveEmpty(pieces) == pieces
    decreases |pieces|
  {
    if |pieces| > 0 {
      RemoveEmptyOfNonEmpty(pieces[1..]);
      assert [pieces[0]] + pieces[1..] == pieces;
    }
  }

  /** The paragraphs of a text are non-empty, hold no blank line, and
      joining them and splitting again gives the same paragraphs. */
  lemma ParagraphsRoundTrip(text: string)
    ensures WellSplit(Paragraphs(text))
    ensures forall k :: 0 <= k < |Paragraphs(text)| ==> Paragraphs(text)[k] != ""
    ensures Paragraphs(Join(Paragraphs(text), ParagraphBreak)) == Paragraphs(text)
  {
    var ps := Paragraphs(text);
    SplitBreaksWellSplit(text);
    RemoveEmptyWellSplit(SplitBreaks(text));
    if |ps| > 0 {
      SplitJoin(ps);
      RemoveEmptyOfNonEmpty(ps);
    }
  }

  /** The translation of each paragraph, in order; the first failure ends
      the batch, as the exception of `TranslateAsync` does. */
  function TranslateAll(paragraphs: seq<string>, translate: string -> Result<string>): (r: Result<seq<string>>)
    ensures r.Success? ==>
      && |r.value| == |paragraphs|
      && (forall k :: 0 <= k < |paragraphs| ==> translate(paragraphs[k]) == Success(r.value[k]))
    ensures r.Success? <==> forall k :: 0 <= k < |paragraphs| ==> translate(paragraphs[k]).Success?
    ensures r.Failure? ==>
      exists k :: 0 <= k < |paragraphs| && translate(paragraphs[k]) == Failure(r.error)
        && forall j :: 0 <= j < k ==> translate(paragraphs[j]).Success?
    decreases |paragraphs|
  {
    if |paragraphs| == 0 then Success([])
    else
      match translate(paragraphs[0])
      case Failure(e) => Failure(e)
      case Success(t) =>
        match TranslateAll(paragraphs[1..], translate)
        case Failure(e) =>
          assert forall k :: 0 <= k < |paragraphs[1..]| ==> paragraphs[1..][k] == paragraphs[k + 1];
          Failure(e)
        case Success(ts) => Success([t] + ts)
  }

  /** `TranslateBatchAsync`: the paragraphs translated in order and joined
      by a blank line; the first paragraph whose translation fails ends the
      batch with its error. */
  function TranslateBatch(text: string, translate: string -> Result<string>): (r: Result<string>)
    ensures r.Success? <==> forall k :: 0 <= k < |Paragraphs(text)| ==> translate(Paragraphs(text)[k]).Success?
    ensures r.Success? ==> exists ts: seq<string> ::
      && |ts| == |Paragraphs(text)|
      && (forall k :: 0 <= k < |ts| ==> translate(Paragraphs(text)[k]) == Success(ts[k]))
      && r.value == Join(ts, ParagraphBreak)
    ensures r.Failure? ==> exists k ::
      && 0 <= k < |Paragraphs(text)|
      && translate(Paragraphs(text)[k]) == Failure(r.error)
      && forall j :: 0 <= j < k ==> translate(Paragraphs(text)[j]).Success?
  {
    match TranslateAll(Paragraphs(text), translate)
    case Success(ts) => Success(Join(ts, ParagraphBreak))
    case Failure(e) => Failure(e)
  }

  /** The translator that changes nothing. */
  function Identity(p: string): Result<string>
  {
    Success(p)
  }

  /** With an identity translator the batch rejoins the paragraphs, and
      running it on its own result changes nothing. */
  lemma IdentityBatchIsIdempotent(text: string)
    ensures TranslateBatch(text, Identity) == Success(Join(Paragraphs(text), ParagraphBreak))
    ensures TranslateBatch(TranslateBatch(text, Identity).value, Identity) == TranslateBatch(text, Identity)
  {
    IdentityTranslatesAll(Paragraphs(text));
    ParagraphsRoundTrip(text);
    IdentityTranslatesAll(Paragraphs(Join(Paragraphs(text), ParagraphBreak)));
  }

  lemma {:induction false} IdentityTranslatesAll(ps: seq<string>)
    ensures TranslateAll(ps, Identity) == Success(ps)
    decreases |ps|
  {
    if |ps| > 0 {
      IdentityTranslatesAll(ps[1..]);
      assert [ps[0]] + ps[1..] == ps;
    }
  }

  /** A text whose pieces are all non-empty comes back unchanged from the
      identity batch: only empty paragraphs are lost. */
  lemma IdentityBatchKeepsCleanText(text: string)
    requires forall k :: 0 <= k < |SplitBreaks(text)| ==> SplitBreaks(text)[k] != ""
    ensures TranslateBatch(text, Identity) == Success(text)
  {
    RemoveEmptyOfNonEmpty(SplitBreaks(text));
    IdentityTranslatesAll(Paragraphs(text));
    JoinSplitBreaks(text);
  }
}
