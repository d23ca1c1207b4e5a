/** `Converter`: the media-format classification of `AudioConverter`, the
    name of the converted file, the choice of decoder in `ConvertToWavAsync`,
    and the file-import flow of the main window that relies on them. The
    decoders themselves are not modelled; a dispatch names the decoder that
    would run. */
module Converter {
  import opened Wrappers
  import opened Text
  import opened NetPath

  /** The file formats the application names, and everything else. */
  datatype Format = Wav | Mp3 | Mp4 | M4a | Aac | Wma | Flac | Ogg | Avi | Mov | Mkv | Wmv | Flv | Unknown

  /** The lower-case extension of each named format. */
  function ExtensionOf(f: Format): string
  {
    match f
    case Wav => ".wav" case Mp3 => ".mp3" case Mp4 => ".mp4" case M4a => ".m4a"
    case Aac => ".aac" case Wma => ".wma" case Flac => ".flac" case Ogg => ".ogg"
    case Avi => ".avi" case Mov => ".mov" case Mkv => ".mkv" case Wmv => ".wmv"
    case Flv => ".flv" case Unknown => ""
  }

  /** The format a lower-cased extension names: the one whose extension it
      equals, `Unknown` when there is none. */
  function FormatOf(ext: string): (f: Format)
    ensures f != Unknown ==> ExtensionOf(f) == ext
    ensures f == Unknown ==> forall g: Format :: g != Unknown ==> ExtensionOf(g) != ext
  {
    if ext == ".wav" then Wav else if ext == ".mp3" then Mp3 else if ext == ".mp4" then Mp4
    else if ext == ".m4a" then M4a else if ext == ".aac" then Aac else if ext == ".wma" then Wma
    else if ext == ".flac" then Flac else if ext == ".ogg" then Ogg else if ext == ".avi" then Avi
    else if ext == ".mov" then Mov else if ext == ".mkv" then Mkv else if ext == ".wmv" then Wmv
    else if ext == ".flv" then Flv else Unknown
  }

  /** The six video containers. */
  predicate IsVideoFormat(f: Format)
  {
    f == Mp4 || f == Avi || f == Mov || f == Mkv || f == Wmv || f == Flv
  }

  /** The formats `ConvertToWavAsync` hands to Media Foundation. */
  predicate IsMediaFoundationFormat(f: Format)
  {
    f == Mp4 || f == M4a || f == Aac || f == Wma || f == Flac || f == Ogg
  }

  /** The video containers the converter has no case for. */
  predicate IsUnconvertedVideo(f: Format)
  {
    f == Avi || f == Mov || f == Mkv || f == Wmv || f == Flv
  }

  const VideoDescription: string := "video file (audio will be extracted)"
  const ConvertedSuffix: string := "_converted" + "." + "wav"

  /** The lower-cased extension every classification starts from. */
  function LowerExtension(path: string): string
  {
    ToLower(Extension(path))
  }

  function Kind(path: string): Format
  {
    FormatOf(LowerExtension(path))
  }

  /** `IsVideoFile`: the lower-cased extension is one of the six video
      containers. */
  predicate IsVideoFile(path: string)
  {
    IsVideoFormat(Kind(path))
  }

  /** `IsSupportedFormat`: the lower-cased extension is one of the thirteen
      the application names. */
  predicate IsSupportedFormat(path: string)
  {
    Kind(path) != Unknown
  }

  /** Every video container is also accepted for import. */
  lemma VideoFilesAreSupported(path: string)
    ensures IsVideoFile(path) ==> IsSupportedFormat(path)
  {
  }

  /** `TrimStart(c)`: drops every leading `c`. */
  function TrimLeading(s: string, c: char): (r: string)
    ensures |r| <= |s| && r == s[|s| - |r|..]
    ensures |r| > 0 ==> r[0] != c
    decreases |s|
  {
    if |s| > 0 && s[0] == c then TrimLeading(s[1..], c) else s
  }

  /** The phrase the import progress shows for a file. */
  function GetFormatDescription(path: string): (r: string)
    ensures IsVideoFile(path) ==> r == VideoDescription
    ensures !IsVideoFile(path) && Extension(path) == "" ==> r == " audio file"
    ensures !IsVideoFile(path) && Extension(path) != "" ==>
      r == ToUpper(Extension(path)[1..]) + " audio file"
  {
    if IsVideoFile(path) then VideoDescription
    else
      UpperExtensionWithoutDot(Extension(path));
      TrimLeading(ToUpper(Extension(path)), '.') + " audio file"
  }

  /** An extension has exactly one dot, in front, and upper-casing keeps it. */
  lemma UpperExtensionWithoutDot(ext: string)
    requires ext == "" || (ext[0] == '.' && |ext| >= 2)
    requires forall i :: 1 <= i < |ext| ==> ext[i] != '.'
    ensures ext == "" ==> TrimLeading(ToUpper(ext), '.') == ""
    ensures ext != "" ==> TrimLeading(ToUpper(ext), '.') == ToUpper(ext[1..])
  {
    if ext != "" {
      var u := ToUpper(ext);
      assert u[0] == '.';
      assert u[1..] == ToUpper(ext[1..]);
      assert TrimLeading(u, '.') == TrimLeading(u[1..], '.');
      assert u[1..][0] != '.' by { assert UpperChar(ext[1]) != '.'; }
    }
  }

  /** Upper-casing never introduces a dot or a separator. */
  lemma UpperKeepsPlainText(ext: string)
    requires HasNoSeparator(ext) && forall i :: 0 <= i < |ext| ==> ext[i] != '.'
    ensures HasNoSeparator(ToUpper(ext)) && forall i :: 0 <= i < |ToUpper(ext)| ==> ToUpper(ext)[i] != '.'
  {
  }

  /** The lower-cased extension of a file `stem.ext`. */
  lemma KindOfNamedFile(dir: string, stem: string, ext: string)
    requires HasNoSeparator(stem) && HasNoSeparator(ext) && |ext| > 0
    requires forall i :: 0 <= i < |ext| ==> ext[i] != '.'
    ensures Extension(Combine(dir, stem + "." + ext)) == "." + ext
    ensures LowerExtension(Combine(dir, stem + "." + ext)) == "." + ToLower(ext)
    ensures Kind(Combine(dir, stem + "." + ext)) == FormatOf("." + ToLower(ext))
  {
    var p := Combine(dir, stem + "." + ext);
    ExtensionOfNamedFile(dir, stem, ext);
    LowerOfDottedExtension(p, ext);
    KindOfLowerExtension(p, "." + ToLower(ext));
  }

  lemma ExtensionOfNamedFile(dir: string, stem: string, ext: string)
    requires HasNoSeparator(stem) && HasNoSeparator(ext) && |ext| > 0
    requires forall i :: 0 <= i < |ext| ==> ext[i] != '.'
    ensures Extension(Combine(dir, stem + "." + ext)) == "." + ext
  {
    StemAndExtension(dir, stem, ext);
  }

  lemma LowerOfDottedExtension(p: string, ext: string)
    requires Extension(p) == "." + ext
    ensures LowerExtension(p) == "." + ToLower(ext)
  {
    ToLowerAppend(".", ext);
    assert ToLower(".") == ".";
  }

  lemma KindOfLowerExtension(p: string, e: string)
    requires LowerExtension(p) == e
    ensures Kind(p) == FormatOf(e)
  {
  }

  /** For a file `stem.ext` that is not a video, the description names the
      extension in capitals; and the classification ignores the case the
      extension is written in. */
  lemma ClassificationOfNamedFile(dir: string, stem: string, ext: string)
    requires HasNoSeparator(stem) && HasNoSeparator(ext) && |ext| > 0
    requires forall i :: 0 <= i < |ext| ==> ext[i] != '.'
    ensures !IsVideoFile(Combine(dir, stem + "." + ext)) ==>
      GetFormatDescription(Combine(dir, stem + "." + ext)) == ToUpper(ext) + " audio file"
    ensures Kind(Combine(dir, stem + "." + ext)) == Kind(Combine(dir, stem + "." + ToUpper(ext)))
  {
    KindOfNamedFile(dir, stem, ext);
    UpperKeepsPlainText(ext);
    KindOfNamedFile(dir, stem, ToUpper(ext));
    LowerOfUpper(ext);
    assert ("." + ext)[1..] == ext;
  }

  /** `dir\<stem>_converted.wav`, next to the input. */
  function ConvertedPath(inputPath: string): string
  {
    Combine(DirectoryName(inputPath), FileNameWithoutExtension(inputPath) + ConvertedSuffix)
  }

  /** The converted file is named after the input's stem. */
  lemma ConvertedPathName(p: string)
    ensures ConvertedPath(p) == Combine(DirectoryName(p), FileNameWithoutExtension(p) + "_converted" + "." + "wav")
  {
    AppendSuffix(FileNameWithoutExtension(p));
  }

  lemma AppendSuffix(stem: string)
    ensures stem + ConvertedSuffix == stem + "_converted" + "." + "wav"
  {
  }

  /** For `dir\stem.ext` the converted file is `dir\stem_converted.wav`. */
  lemma ConvertedPathOfNamedFile(dir: string, stem: string, ext: string)
    requires HasNoSeparator(stem) && HasNoSeparator(ext) && |ext| > 0
    requires forall i :: 0 <= i < |ext| ==> ext[i] != '.'
    requires |dir| > 0 && !IsSeparator(dir[|dir| - 1])
    ensures ConvertedPath(Combine(dir, stem + "." + ext)) == Combine(dir, stem + "_converted" + "." + "wav")
  {
    var name := stem + "." + ext;
    assert HasNoSeparator(name);
    ConvertedPathName(Combine(dir, name));
    StemAndExtension(dir, stem, ext);
    DirectoryNameOfCombine(dir, name);
  }

  /** A file named `stem.wav`, in any directory, is classified as WAV. */
  lemma WavFileIsWav(dir: string, stem: string)
    requires HasNoSeparator(stem)
    ensures Kind(Combine(dir, stem + "." + "wav")) == Wav
  {
    WavExtensionOfNamedFile(dir, stem);
    WavKind(Combine(dir, stem + "." + "wav"));
  }

  lemma WavExtensionOfNamedFile(dir: string, stem: string)
    requires HasNoSeparator(stem)
    ensures LowerExtension(Combine(dir, stem + "." + "wav")) == "." + "wav"
  {
    ExtensionOfNamedFile(dir, stem, "wav");
    WavExtension(Combine(dir, stem + "." + "wav"));
  }

  lemma WavExtension(p: string)
    requires Extension(p) == "." + "wav"
    ensures LowerExtension(p) == "." + "wav"
  {
    LowerOfDottedExtension(p, "wav");
    DottedLower("wav");
  }

  lemma WavKind(p: string)
    requires LowerExtension(p) == "." + "wav"
    ensures Kind(p) == Wav
  {
    assert "." + "wav" == ".wav";
  }

  /** `"." + ToLower(ext)` for an extension already in lower case. */
  lemma DottedLower(ext: string)
    requires forall i :: 0 <= i < |ext| ==> !IsUpperAscii(ext[i])
    ensures "." + ToLower(ext) == "." + ext
  {
    LowerOfLowercase(ext);
  }

  /** Whatever the input, the converted file is itself a WAV file. */
  lemma ConvertedPathIsWav(p: string)
    ensures Kind(ConvertedPath(p)) == Wav
  {
    var stem := FileNameWithoutExtension(p) + "_converted";
    assert HasNoSeparator(stem);
    ConvertedPathName(p);
    WavFileIsWav(DirectoryName(p), stem);
  }

  /** The converted file lies in the input's directory. */
  lemma ConvertedPathStaysInDirectory(p: string)
    requires DirectoryName(p) != "" && !IsSeparator(DirectoryName(p)[|DirectoryName(p)| - 1])
    ensures DirectoryName(ConvertedPath(p)) == DirectoryName(p)
  {
    SuffixKeepsNoSeparator(FileNameWithoutExtension(p));
    DirectoryNameOfCombine(DirectoryName(p), FileNameWithoutExtension(p) + ConvertedSuffix);
  }

  lemma SuffixKeepsNoSeparator(stem: string)
    requires HasNoSeparator(stem)
    ensures HasNoSeparator(stem + ConvertedSuffix)
  {
  }

  /** The converted file never overwrites its input: its stem is the
      input's stem lengthened by `_converted`, so the two paths differ. */
  lemma ConvertedPathIsNotInput(p: string)
    ensures ConvertedPath(p) != p
  {
    var stem := FileNameWithoutExtension(p);
    var stem2 := stem + "_converted";
    assert HasNoSeparator(stem2);
    ConvertedPathName(p);
    StemAndExtension(DirectoryName(p), stem2, "wav");
    assert FileNameWithoutExtension(ConvertedPath(p)) == stem2;
    assert |stem2| != |stem|;
  }

  /** The decoder a dispatch selects. */
  datatype Route = CopyWav | DecodeMp3 | MediaFoundation

  function UnsupportedMessage(lowerExtension: string): string
  {
    "Failed to convert audio file: File format " + lowerExtension
      + " is not supported. Supported formats: MP3, MP4, M4A, WAV, AAC, WMA, FLAC, OGG"
  }

  /** The `switch` of `ConvertToWavAsync`: `.wav` is copied, `.mp3` is
      decoded as MP3, six formats go to Media Foundation, and every other
      format has no case. */
  function RouteOf(f: Format): (r: Option<Route>)
    ensures r == Some(CopyWav) <==> f == Wav
    ensures r == Some(DecodeMp3) <==> f == Mp3
    ensures r == Some(MediaFoundation) <==> IsMediaFoundationFormat(f)
  {
    match f
    case Wav => Some(CopyWav)
    case Mp3 => Some(DecodeMp3)
    case Mp4 => Some(MediaFoundation)
    case M4a => Some(MediaFoundation)
    case Aac => Some(MediaFoundation)
    case Wma => Some(MediaFoundation)
    case Flac => Some(MediaFoundation)
    case Ogg => Some(MediaFoundation)
    case _ => None
  }

  /** `ConvertToWavAsync` as written: the decoder the `switch` selects and the
      converted path, or the wrapped not-supported message when it has no
      case for the format. */
  function ConvertToWav(inputPath: string): (r: Result<(Route, string)>)
    ensures r.Success? <==> Kind(inputPath) == Wav || Kind(inputPath) == Mp3 || IsMediaFoundationFormat(Kind(inputPath))
    ensures r.Success? ==> r.value.1 == ConvertedPath(inputPath)
    ensures r.Success? ==> (r.value.0 == CopyWav <==> Kind(inputPath) == Wav)
    ensures r.Success? ==> (r.value.0 == DecodeMp3 <==> Kind(inputPath) == Mp3)
    ensures r.Failure? ==> r.error == UnsupportedMessage(LowerExtension(inputPath))
  {
    match RouteOf(Kind(inputPath))
    case Some(route) => Success((route, ConvertedPath(inputPath)))
    case None => Failure(UnsupportedMessage(LowerExtension(inputPath)))
  }

  /** The gap, exactly: a file is accepted for import and then rejected by
      the converter if and only if it is one of five video containers. */
  lemma SupportedButNotConvertible(path: string)
    ensures IsSupportedFormat(path) && ConvertToWav(path).Failure? <==> IsUnconvertedVideo(Kind(path))
  {
    RouteGap(Kind(path));
  }

  /** The formats the `switch` has no case for, apart from `Unknown`. */
  lemma RouteGap(f: Format)
    ensures f != Unknown && RouteOf(f).None? <==> IsUnconvertedVideo(f)
  {
  }

  /** The corrected `switch`: the five video containers join the formats
      Media Foundation decodes, since it reads the audio track of a video. */
  function CorrectedRouteOf(f: Format): (r: Option<Route>)
    ensures r.Some? <==> f != Unknown
    ensures r == Some(CopyWav) <==> f == Wav
    ensures r == Some(MediaFoundation) <==> IsMediaFoundationFormat(f) || IsUnconvertedVideo(f)
    ensures !IsUnconvertedVideo(f) ==> r == RouteOf(f)
  {
    if IsUnconvertedVideo(f) then Some(MediaFoundation) else RouteOf(f)
  }

  /** A dispatch with the corrected `switch`. */
  function ConvertToWavCorrected(inputPath: string): (r: Result<(Route, string)>)
    ensures r.Success? <==> IsSupportedFormat(inputPath)
    ensures r.Success? ==> r.value.1 == ConvertedPath(inputPath)
    ensures r.Success? ==> (r.value.0 == CopyWav <==> Kind(inputPath) == Wav)
    ensures r.Failure? ==> r.error == UnsupportedMessage(LowerExtension(inputPath))
  {
    match CorrectedRouteOf(Kind(inputPath))
    case Some(route) => Success((route, ConvertedPath(inputPath)))
    case None => Failure(UnsupportedMessage(LowerExtension(inputPath)))
  }

  /** The two dispatches agree on everything but the five video containers. */
  lemma CorrectionOnlyAddsVideo(path: string)
    ensures !IsUnconvertedVideo(Kind(path)) ==> ConvertToWavCorrected(path) == ConvertToWav(path)
    ensures IsVideoFile(path) ==> ConvertToWavCorrected(path) == Success((MediaFoundation, ConvertedPath(path)))
  {
  }

  /** What importing a file leads to: a rejection before any work, the WAV
      file that will be transcribed, or the error the user is shown. */
  datatype ImportOutcome = Rejected | Process(wavPath: string) | ImportFailed(message: string)

  const RejectedMessage: string := "Unsupported file format. Please select an audio or video file."

  /** The import flow of the main window with a given dispatch: unsupported
      files are refused; a WAV file is used in place; anything else is
      converted first, and a conversion failure is reported. */
  function ImportWith(path: string, convert: string -> Result<(Route, string)>): (r: ImportOutcome)
    ensures r.Rejected? <==> !IsSupportedFormat(path)
    ensures IsSupportedFormat(path) && Kind(path) == Wav ==> r == Process(path)
    ensures r.Process? && Kind(path) != Wav ==> convert(path).Success? && convert(path).value.1 == r.wavPath
    ensures r.ImportFailed? <==> IsSupportedFormat(path) && Kind(path) != Wav && convert(path).Failure?
    ensures r.ImportFailed? ==> r.message == "Failed to import file: " + convert(path).error
  {
    if !IsSupportedFormat(path) then Rejected
    else if Kind(path) == Wav then Process(path)
    else
      match convert(path)
      case Success(v) => Process(v.1)
      case Failure(e) => ImportFailed("Failed to import file: " + e)
  }

  /** Importing as written: an accepted video file fails in conversion. */
  lemma ImportOfVideoFails(path: string)
    requires IsUnconvertedVideo(Kind(path))
    ensures IsSupportedFormat(path)
    ensures ConvertToWav(path).Failure?
    ensures ImportWith(path, ConvertToWav) == ImportFailed("Failed to import file: " + ConvertToWav(path).error)
  {
    assert RouteOf(Kind(path)) == None;
  }

  /** An instance: any `dir\stem.avi` passes the format check and the import
      then fails. */
  lemma AviImportFails(dir: string, stem: string)
    requires HasNoSeparator(stem)
    ensures IsSupportedFormat(Combine(dir, stem + "." + "avi"))
    ensures ImportWith(Combine(dir, stem + "." + "avi"), ConvertToWav).ImportFailed?
  {
    AviFileIsAvi(dir, stem);
    ImportOfVideoFails(Combine(dir, stem + "." + "avi"));
  }

  /** A file named `stem.avi`, in any directory, is classified as AVI. */
  lemma AviFileIsAvi(dir: string, stem: string)
    requires HasNoSeparator(stem)
    ensures Kind(Combine(dir, stem + "." + "avi")) == Avi
  {
    AviExtensionOfNamedFile(dir, stem);
    AviKind(Combine(dir, stem + "." + "avi"));
  }

  lemma AviExtensionOfNamedFile(dir: string, stem: string)
    requires HasNoSeparator(stem)
    ensures LowerExtension(Combine(dir, stem + "." + "avi")) == "." + "avi"
  {
    ExtensionOfNamedFile(dir, stem, "avi");
    AviExtension(Combine(dir, stem + "." + "avi"));
  }

  lemma AviExtension(p: string)
    requires Extension(p) == "." + "avi"
    ensures LowerExtension(p) == "." + "avi"
  {
    LowerOfDottedExtension(p, "avi");
    DottedLower("avi");
  }

  lemma AviKind(p: string)
    requires LowerExtension(p) == "." + "avi"
    ensures Kind(p) == Avi
  {
    assert "." + "avi" == ".avi";
  }

  /** With the corrected dispatch every accepted file reaches transcription:
      WAV files in place, everything else as its converted WAV. */
  lemma ImportCorrectedProcessesEverySupportedFile(path: string)
    ensures ImportWith(path, ConvertToWavCorrected).Process? <==> IsSupportedFormat(path)
    ensures IsSupportedFormat(path) && Kind(path) != Wav ==>
      ImportWith(path, ConvertToWavCorrected).wavPath == ConvertedPath(path)
  {
  }
}
