/** `Settings`: the settings dialog's keystroke filter, its validation of
    the form, and what Save stores. The dialog's controls are a record of
    their values; the settings that were in force when the dialog opened are
    a second record. */
module Settings {
  import opened Wrappers
  import opened Text

  // ---------------------------------------------------------------------
  // Keystroke filter

  /** `Regex.IsMatch(text, "^[0-9]+$")` as .NET evaluates it: without the
      Multiline option `$` matches at the very end and also just before a
      final `\n`, so one trailing line feed is accepted. */
  predicate IsTextNumericAsWritten(text: string)
  {
    || (|text| > 0 && IsDigits(text))
    || (|text| > 1 && text[|text| - 1] == '\n' && IsDigits(text[..|text| - 1]))
  }

  /** What the filter is for: a non-empty run of ASCII digits and nothing else. */
  predicate IsTextNumeric(text: string)
  {
    |text| > 0 && IsDigits(text)
  }

  /** The as-written filter lets a digit followed by a line feed through,
      although that text is not numeric. */
  lemma TrailingNewlinePassesFilter()
    ensures IsTextNumericAsWritten("5\n") && !IsTextNumeric("5\n")
  {
    assert "5\n"[..1] == "5";
    assert !IsDigit("5\n"[1]);
  }

  /** The two filters differ only on text ending in a line feed. */
  lemma FiltersAgreeWithoutTrailingNewline(text: string)
    requires |text| == 0 || text[|text| - 1] != '\n'
    ensures IsTextNumericAsWritten(text) <==> IsTextNumeric(text)
  {
  }

  /** The corrected filter accepts exactly what `int.TryParse` reads as the
      same non-negative number, for any value that fits an `int`. */
  lemma NumericTextParses(text: string)
    requires IsTextNumeric(text) && ParseNat(text) <= Int32Max
    ensures TryParseInt(text) == Some(ParseNat(text))
  {
    assert !IsNumberWhite(text[0]) && !IsNumberWhite(text[|text| - 1]);
    TrimOfUnpadded(text);
    UnsignedParses(text);
  }

  /** Trimmed unsigned digits parse as their value when it fits. */
  lemma UnsignedParses(t: string)
    requires |t| > 0 && IsDigits(t) && ParseNat(t) <= Int32Max
    ensures ParseSigned(t) == Some(ParseNat(t))
  {
    assert t[0] != '-' && t[0] != '+';
  }

  // ---------------------------------------------------------------------
  // `int.TryParse` with the default number style

  const Int32Min: int := -0x8000_0000
  const Int32Max: int := 0x7FFF_FFFF

  /** The white space number parsing skips: U+0009..U+000D and space. */
  predicate IsNumberWhite(c: char) { c == ' ' || '\t' <= c <= '\r' }

  function TrimStart(s: string): (r: string)
    ensures |r| <= |s| && r == s[|s| - |r|..]
    ensures |r| > 0 ==> !IsNumberWhite(r[0])
    decreases |s|
  {
    if |s| > 0 && IsNumberWhite(s[0]) then TrimStart(s[1..]) else s
  }

  function TrimEnd(s: string): (r: string)
    ensures |r| <= |s| && r == s[..|r|]
    ensures |r| > 0 ==> !IsNumberWhite(r[|r| - 1])
    decreases |s|
  {
    if |s| > 0 && IsNumberWhite(s[|s| - 1]) then TrimEnd(s[..|s| - 1]) else s
  }

  function Trim(s: string): string { TrimEnd(TrimStart(s)) }

  lemma TrimOfUnpadded(s: string)
    requires |s| > 0 && !IsNumberWhite(s[0]) && !IsNumberWhite(s[|s| - 1])
    ensures Trim(s) == s
  {
  }

  /** `int.TryParse(s, out v)` under `NumberStyles.Integer`: optional white
      space around an optionally signed run of decimal digits whose value fits
      in 32 bits. */
  function TryParseInt(s: string): (r: Option<int>)
    ensures r.Some? ==> Int32Min <= r.value <= Int32Max
  {
    ParseSigned(Trim(s))
  }

  /** The number of trimmed text: an optional sign and decimal digits. */
  function ParseSigned(t: string): (r: Option<int>)
    ensures r.Some? ==> Int32Min <= r.value <= Int32Max
  {
    var negative := |t| > 0 && t[0] == '-';
    var digits := if |t| > 0 && (t[0] == '-' || t[0] == '+') then t[1..] else t;
    if |digits| > 0 && IsDigits(digits) then
      var n: int := ParseNat(digits);
      var v := if negative then -n else n;
      if Int32Min <= v <= Int32Max then Some(v) else None
    else None
  }

  /** Parsing reads back what `int.ToString()` writes. */
  lemma ParseIntToString(i: int)
    requires Int32Min <= i <= Int32Max
    ensures TryParseInt(IntToString(i)) == Some(i)
  {
    var s := IntToString(i);
    if i < 0 {
      NegativeParses(-i);
    } else {
      ParseNatToString(i);
      UnsignedParses(s);
    }
    assert !IsNumberWhite(s[0]) && !IsNumberWhite(s[|s| - 1]);
    TrimOfUnpadded(s);
  }

  /** A minus sign before the digits of `n` reads as `-n`. */
  lemma NegativeParses(n: nat)
    requires 0 < n <= -Int32Min
    ensures ParseSigned("-" + NatToString(n)) == Some(-(n as int))
  {
    var t := "-" + NatToString(n);
    assert t[1..] == NatToString(n);
    ParseNatToString(n);
  }

  // ---------------------------------------------------------------------
  // The form and the stored settings

  /** The values of the dialog's controls when Save is clicked. A combo box
      index of 1 selects the remote provider; the language is the selected
      item's tag, if any. */
  datatype SettingsForm = SettingsForm(
    transcriptionProviderIndex: int, whisperPath: string, whisperModelPath: string,
    azureKey: string, azureRegion: string,
    summaryProviderIndex: int, ollamaModel: string, ollamaUrl: string,
    openRouterKey: string, openRouterModel: string,
    enableTranslation: bool, deepLKey: string, selectedLanguageTag: Option<string>,
    realTimeInterval: string, enableSummary: bool, autoExport: bool)

  /** The persisted application settings the dialog edits. */
  datatype AppSettings = AppSettings(
    useAzureSTT: bool, whisperExePath: string, whisperModelPath: string,
    azureSTTKey: string, azureRegion: string,
    useOpenRouter: bool, ollamaModel: string, ollamaUrl: string,
    openRouterKey: string, openRouterModel: string,
    enableTranslation: bool, deepLKey: string, targetLanguage: string,
    realTimeChunkSeconds: int, enableSummary: bool, autoExport: bool)

  const MinInterval: int := 5
  const MaxInterval: int := 300
  const DefaultLanguage: string := "EN-US"

  const WhisperPathMissing: string := "Please specify the Whisper CLI path."
  const WhisperModelMissing: string := "Please specify the Whisper model path."
  const AzureKeyMissing: string := "Please enter your Azure Speech API key."
  const OpenRouterKeyMissing: string := "Please enter your OpenRouter API key."
  const DeepLKeyMissing: string := "Please enter your DeepL API key."
  const IntervalOutOfRange: string := "Real-time interval must be between 5 and 300 seconds."

  predicate IntervalAcceptable(text: string)
  {
    var v := TryParseInt(text);
    v.Some? && MinInterval <= v.value <= MaxInterval
  }

  /** The requirements on the provider fields, given the provider choices
      `useAzure` and `useOpenRouter` the dialog checks against. */
  predicate ProvidersAcceptable(f: SettingsForm, useAzure: bool, useOpenRouter: bool)
  {
    && TranscriberAcceptable(f, useAzure)
    && SummariserAcceptable(f, useOpenRouter)
    && (f.enableTranslation ==> !IsBlank(f.deepLKey))
  }

  /** Whisper needs both of its paths; Azure needs its key. */
  predicate TranscriberAcceptable(f: SettingsForm, useAzure: bool)
  {
    && (!useAzure ==> !IsBlank(f.whisperPath) && !IsBlank(f.whisperModelPath))
    && (useAzure ==> !IsBlank(f.azureKey))
  }

  /** OpenRouter needs its key when summaries are on. */
  predicate SummariserAcceptable(f: SettingsForm, useOpenRouter: bool)
  {
    f.enableSummary && useOpenRouter ==> !IsBlank(f.openRouterKey)
  }

  /** Every requirement the dialog places on a form. */
  predicate FormAcceptable(f: SettingsForm, useAzure: bool, useOpenRouter: bool)
  {
    ProvidersAcceptable(f, useAzure, useOpenRouter) && IntervalAcceptable(f.realTimeInterval)
  }

  predicate IsValidationMessage(m: string)
  {
    m in {WhisperPathMissing, WhisperModelMissing, AzureKeyMissing, OpenRouterKeyMissing,
          DeepLKeyMissing, IntervalOutOfRange}
  }

  /** The checks in order, against the given provider choices; the first
      failure's message, or `None` when the form passes. */
  function CheckForm(f: SettingsForm, useAzure: bool, useOpenRouter: bool): (r: Option<string>)
    ensures r.None? <==> FormAcceptable(f, useAzure, useOpenRouter)
    ensures r.Some? ==> IsValidationMessage(r.value)
    ensures r == Some(WhisperPathMissing) <==> !useAzure && IsBlank(f.whisperPath)
    ensures r == Some(WhisperModelMissing) <==>
      !useAzure && !IsBlank(f.whisperPath) && IsBlank(f.whisperModelPath)
    ensures r == Some(AzureKeyMissing) <==> useAzure && IsBlank(f.azureKey)
    ensures r == Some(OpenRouterKeyMissing) <==>
      TranscriberAcceptable(f, useAzure) && f.enableSummary && useOpenRouter && IsBlank(f.openRouterKey)
    ensures r == Some(DeepLKeyMissing) <==>
      && TranscriberAcceptable(f, useAzure) && SummariserAcceptable(f, useOpenRouter)
      && f.enableTranslation && IsBlank(f.deepLKey)
    ensures r == Some(IntervalOutOfRange) <==>
      ProvidersAcceptable(f, useAzure, useOpenRouter) && !IntervalAcceptable(f.realTimeInterval)
  {
    if !useAzure && IsBlank(f.whisperPath) then Some(WhisperPathMissing)
    else if !useAzure && IsBlank(f.whisperModelPath) then Some(WhisperModelMissing)
    else if useAzure && IsBlank(f.azureKey) then Some(AzureKeyMissing)
    else if f.enableSummary && useOpenRouter && IsBlank(f.openRouterKey) then Some(OpenRouterKeyMissing)
    else if f.enableTranslation && IsBlank(f.deepLKey) then Some(DeepLKeyMissing)
    else if !IntervalAcceptable(f.realTimeInterval) then Some(IntervalOutOfRange)
    else None
  }

  /** `ValidateSettings` as written: the provider checks read the settings in
      force when the dialog opened, not the providers selected on the form. */
  function ValidateSettings(saved: AppSettings, f: SettingsForm): (r: Option<string>)
    ensures r.None? <==> FormAcceptable(f, saved.useAzureSTT, saved.useOpenRouter)
    ensures r.Some? ==> IsValidationMessage(r.value)
  {
    CheckForm(f, saved.useAzureSTT, saved.useOpenRouter)
  }

  /** Validation keyed on the providers the form selects. */
  function ValidateSelection(f: SettingsForm): (r: Option<string>)
    ensures r.None? <==> FormAcceptable(f, f.transcriptionProviderIndex == 1, f.summaryProviderIndex == 1)
    ensures r.Some? ==> IsValidationMessage(r.value)
  {
    CheckForm(f, f.transcriptionProviderIndex == 1, f.summaryProviderIndex == 1)
  }

  /** `Math.Max(5, Math.Min(300, interval))`. */
  function ClampInterval(interval: int): (r: int)
    ensures MinInterval <= r <= MaxInterval
    ensures MinInterval <= interval <= MaxInterval ==> r == interval
    ensures interval < MinInterval ==> r == MinInterval
    ensures interval > MaxInterval ==> r == MaxInterval
  {
    var upper := if MaxInterval <= interval then MaxInterval else interval;
    if MinInterval >= upper then MinInterval else upper
  }

  /** The settings Save writes after validation has passed: every field from
      the form, the interval clamped when it parses (kept otherwise), and the
      language defaulting to US English when no item is selected. */
  function Apply(saved: AppSettings, f: SettingsForm): (r: AppSettings)
    ensures r.useAzureSTT <==> f.transcriptionProviderIndex == 1
    ensures r.useOpenRouter <==> f.summaryProviderIndex == 1
    ensures f.selectedLanguageTag.None? ==> r.targetLanguage == DefaultLanguage
    ensures f.selectedLanguageTag.Some? ==> r.targetLanguage == f.selectedLanguageTag.value
    ensures TryParseInt(f.realTimeInterval).None? ==> r.realTimeChunkSeconds == saved.realTimeChunkSeconds
    ensures TryParseInt(f.realTimeInterval).Some? ==> MinInterval <= r.realTimeChunkSeconds <= MaxInterval
  {
    var interval := TryParseInt(f.realTimeInterval);
    AppSettings(
      f.transcriptionProviderIndex == 1, f.whisperPath, f.whisperModelPath, f.azureKey, f.azureRegion,
      f.summaryProviderIndex == 1, f.ollamaModel, f.ollamaUrl, f.openRouterKey, f.openRouterModel,
      f.enableTranslation, f.deepLKey, f.selectedLanguageTag.GetOr(DefaultLanguage),
      if interval.Some? then ClampInterval(interval.value) else saved.realTimeChunkSeconds,
      f.enableSummary, f.autoExport)
  }

  /** `SaveButton_Click` as written: nothing is stored unless validation
      passes; the dialog then stores the form. */
  function Save(saved: AppSettings, f: SettingsForm): (r: Option<AppSettings>)
    ensures r.Some? <==> ValidateSettings(saved, f).None?
    ensures r.Some? ==> r.value == Apply(saved, f)
  {
    if ValidateSettings(saved, f).Some? then None else Some(Apply(saved, f))
  }

  /** Save keyed on the form's own provider selection. */
  function SaveSelection(saved: AppSettings, f: SettingsForm): (r: Option<AppSettings>)
    ensures r.Some? <==> ValidateSelection(f).None?
    ensures r.Some? ==> r.value == Apply(saved, f)
  {
    if ValidateSelection(f).Some? then None else Some(Apply(saved, f))
  }

  /** Settings a session can run with: the chosen providers have what they
      need and the interval is in range. */
  predicate Usable(s: AppSettings)
  {
    && (!s.useAzureSTT ==> !IsBlank(s.whisperExePath) && !IsBlank(s.whisperModelPath))
    && (s.useAzureSTT ==> !IsBlank(s.azureSTTKey))
    && (s.enableSummary && s.useOpenRouter ==> !IsBlank(s.openRouterKey))
    && (s.enableTranslation ==> !IsBlank(s.deepLKey))
    && MinInterval <= s.realTimeChunkSeconds <= MaxInterval
  }

  /** On a validated form the clamp changes nothing: the stored interval is
      the one typed. */
  lemma SavedIntervalIsTyped(saved: AppSettings, f: SettingsForm)
    requires Save(saved, f).Some?
    ensures Save(saved, f).value.realTimeChunkSeconds == TryParseInt(f.realTimeInterval).value
  {
  }

  /** Keyed on the form's selection, Save only ever stores usable settings,
      and it stores the form whenever those settings would be usable. */
  lemma SaveSelectionIsUsable(saved: AppSettings, f: SettingsForm)
    ensures SaveSelection(saved, f).Some? ==> Usable(SaveSelection(saved, f).value)
    ensures IntervalAcceptable(f.realTimeInterval) && Usable(Apply(saved, f)) ==> SaveSelection(saved, f).Some?
  {
  }

  /** The form used below: local transcription selected with no Whisper
      paths, the Azure key still filled in, summary and translation off, a
      valid interval. */
  function LocalFormWithoutPaths(): SettingsForm
  {
    SettingsForm(0, "", "", "key", "", 0, "", "", "", "", false, "", None, "30", false, false)
  }

  function AzureSettings(): AppSettings
  {
    AppSettings(true, "", "", "key", "", false, "", "", "", "", false, "", DefaultLanguage, 30, false, false)
  }

  lemma ThirtyParses()
    ensures TryParseInt("30") == Some(30)
  {
    assert IntToString(30) == "30";
    ParseIntToString(30);
  }

  /** As written, a user who had Azure configured and switches back to local
      transcription with empty Whisper paths gets those settings stored. */
  lemma SaveStoresUnusableSettings()
    ensures Save(AzureSettings(), LocalFormWithoutPaths()).Some?
    ensures !Usable(Save(AzureSettings(), LocalFormWithoutPaths()).value)
    ensures SaveSelection(AzureSettings(), LocalFormWithoutPaths()) == None
  {
    StoredAzureKeyPasses();
    assert IsBlank(Apply(AzureSettings(), LocalFormWithoutPaths()).whisperExePath);
    assert ValidateSelection(LocalFormWithoutPaths()) == Some(WhisperPathMissing);
  }

  lemma StoredAzureKeyPasses()
    ensures ValidateSettings(AzureSettings(), LocalFormWithoutPaths()) == None
  {
    ThirtyParses();
    KeyIsNotBlank();
    assert FormAcceptable(LocalFormWithoutPaths(), true, false);
  }

  lemma KeyIsNotBlank()
    ensures !IsBlank("key")
  {
    assert !IsWhiteSpace("key"[0]);
  }
}
