/** The chat list controller (src/App.jsx): the `messages` list and the
    app-wide `isTranslating` flag, and the two handlers that change them. */
module App {
  import opened Wrappers
  import opened JsString
  import LanguageDetector
  import Translator

  /** One chat record. */
  datatype Message = Message(text: string, detectedLang: string, summary: string, translated: string)

  /** The language a record shows until detection settles. */
  const Detecting := "detecting..."
  /** The language a record shows when detection found nothing. */
  const Unknown := "unknown"
  /** The translation shown when the record is already in the target language. */
  const AlreadyInTargetLanguage := "Text is already in the selected language"
  /** The translation shown when the translator gave nothing. */
  const TranslationFailed := "Translation failed"
  /** The translation shown when translating threw. */
  const TranslationError := "Translation error"

  /** `lang || "unknown"`: null and the empty string both read as unknown. */
  function LanguageOrUnknown(lang: Option<string>): (shown: string)
    ensures shown != ""
    ensures lang.Some? && lang.value != "" ==> shown == lang.value
    ensures shown == Unknown <==> lang.None? || lang.value in {"", Unknown}
  {
    if lang.Some? && lang.value != "" then lang.value else Unknown
  }

  /** The post-detection update of `handleSend`: the element at position
      `length - 1` of the list takes the language; every other element, and the
      length, stay as they are. */
  function WithLanguageAtLast(messages: seq<Message>, lang: Option<string>): (updated: seq<Message>)
    ensures |updated| == |messages|
    ensures forall i :: 0 <= i < |messages| - 1 ==> updated[i] == messages[i]
    ensures |messages| > 0 ==>
      var last := |messages| - 1;
      && updated[last].detectedLang == LanguageOrUnknown(lang)
      && updated[last].text == messages[last].text
      && updated[last].summary == messages[last].summary
      && updated[last].translated == messages[last].translated
  {
    seq(|messages|, i requires 0 <= i < |messages| =>
      if i == |messages| - 1 then messages[i].(detectedLang := LanguageOrUnknown(lang)) else messages[i])
  }

  /** The per-record update of `handleTranslate`: only the element at `index`
      takes the new translation; nothing else changes, and no `text` ever does. */
  function WithTranslationAt(messages: seq<Message>, index: int, translated: string): (updated: seq<Message>)
    ensures |updated| == |messages|
    ensures forall i :: 0 <= i < |messages| && i != index ==> updated[i] == messages[i]
    ensures forall i :: 0 <= i < |messages| ==>
      && updated[i].text == messages[i].text
      && updated[i].detectedLang == messages[i].detectedLang
      && updated[i].summary == messages[i].summary
    ensures 0 <= index < |messages| ==> updated[index].translated == translated
  {
    seq(|messages|, i requires 0 <= i < |messages| =>
      if i == index then messages[i].(translated := translated) else messages[i])
  }

  /** What `handleTranslate` writes once `translateText` has settled: the
      translation when it is non-empty, "Translation failed" when it is null or
      empty, "Translation error" when the call threw. */
  function TranslationOutcome(translated: Settled<Option<string>>): (shown: string)
    ensures shown != ""
    ensures translated.Rejected? ==> shown == TranslationError
    ensures translated.Fulfilled? && translated.value.Some? && translated.value.value != "" ==>
      shown == translated.value.value
    ensures translated.Fulfilled? && (translated.value.None? || translated.value.value == "") ==>
      shown == TranslationFailed
  {
    match translated
    case Rejected => TranslationError
    case Fulfilled(Some(text)) => if text != "" then text else TranslationFailed
    case Fulfilled(None) => TranslationFailed
  }

  /** The application state and the two handlers. The detector and translator
      services are the module-level singletons the handlers reach. */
  class ChatApp {
    var inputText: string
    var messages: seq<Message>
    var selectedLanguage: string
    var isTranslating: bool
    const detector: LanguageDetector.DetectorService
    const translator: Translator.TranslatorService

    constructor (detector: LanguageDetector.DetectorService, translator: Translator.TranslatorService)
      ensures inputText == "" && messages == [] && selectedLanguage == "en" && !isTranslating
      ensures this.detector == detector && this.translator == translator
    {
      inputText := "";
      messages := [];
      selectedLanguage := "en";
      isTranslating := false;
      this.detector := detector;
      this.translator := translator;
    }

    /** `handleSend()`. A blank input changes nothing. Otherwise one record is
        appended in the "detecting..." state and the input is cleared; when
        detection settles, the LAST record of the list takes the language.
        When detection rejects, the handler rejects and the record keeps
        "detecting...". */
    method HandleSend(host: LanguageDetector.DetectorHost)
      returns (done: Settled<()>, calls: seq<LanguageDetector.DetectorCall>)
      modifies this, detector
      ensures selectedLanguage == old(selectedLanguage) && isTranslating == old(isTranslating)
      ensures IsBlank(old(inputText)) ==>
        && done == Fulfilled(()) && calls == []
        && messages == old(messages) && inputText == old(inputText)
        && detector.instance == old(detector.instance)
      ensures !IsBlank(old(inputText)) ==>
        var appended := old(messages) + [Message(old(inputText), Detecting, "", "")];
        var detection := LanguageDetector.DetectLanguageStep(old(detector.instance), host, old(inputText));
        && inputText == ""
        && calls == detection.calls && detector.instance == detection.state
        && done == (if detection.result.Fulfilled? then Fulfilled(()) else Rejected)
        && messages == (if detection.result.Fulfilled? then WithLanguageAtLast(appended, detection.result.value) else appended)
      // exactly one record is added, at the end, holding the input; earlier records are untouched
      ensures !IsBlank(old(inputText)) ==>
        && |messages| == |old(messages)| + 1
        && messages[..|old(messages)|] == old(messages)
        && messages[|old(messages)|].text == old(inputText)
        && messages[|old(messages)|].summary == "" && messages[|old(messages)|].translated == ""
    {
      if IsBlank(inputText) {
        return Fulfilled(()), [];
      }
      var text := inputText;
      var newMessage := Message(text, Detecting, "", "");
      var earlier := messages;
      messages := messages + [newMessage];
      assert messages[..|earlier|] == earlier;
      inputText := "";
      var lang;
      lang, calls := detector.DetectLanguage(host, text);
      if lang.Rejected? {
        return Rejected, calls;
      }
      var appended := messages;
      messages := WithLanguageAtLast(appended, lang.value);
      assert messages[..|earlier|] == appended[..|earlier|];
      done := Fulfilled(());
    }

    /** `handleTranslate(messageIndex)`. A missing record or a translation
        already running anywhere makes it a no-op. Otherwise the flag is raised
        for the duration; a record already in the selected language gets the
        sentinel without the translator being asked; any other gets the outcome
        of `translateText`. The flag is lowered on every path. */
    method HandleTranslate(messageIndex: int, host: Translator.TranslatorHost)
      returns (calls: seq<Translator.TranslatorCall>)
      modifies this, translator
      ensures inputText == old(inputText) && selectedLanguage == old(selectedLanguage)
      // the flag ends where it started: lowered again after any run that raised it
      ensures isTranslating == old(isTranslating)
      ensures !(0 <= messageIndex < |old(messages)|) || old(isTranslating) ==>
        messages == old(messages) && calls == [] && translator.cache == old(translator.cache)
      ensures 0 <= messageIndex < |old(messages)| && !old(isTranslating) ==>
        var message := old(messages)[messageIndex];
        && (message.detectedLang == old(selectedLanguage) ==>
              && messages == WithTranslationAt(old(messages), messageIndex, AlreadyInTargetLanguage)
              && calls == [] && translator.cache == old(translator.cache))
        && (message.detectedLang != old(selectedLanguage) ==>
              var t := Translator.TranslateTextStep(old(translator.cache), host, message.text, message.detectedLang, old(selectedLanguage));
              && messages == WithTranslationAt(old(messages), messageIndex, TranslationOutcome(t.result))
              && calls == t.calls && translator.cache == t.state)
      // every path touches the indexed record only, and never a text or the length
      ensures |messages| == |old(messages)|
      ensures forall i :: 0 <= i < |messages| && i != messageIndex ==> messages[i] == old(messages)[i]
      ensures forall i :: 0 <= i < |messages| ==> messages[i].text == old(messages)[i].text
    {
      if !(0 <= messageIndex < |messages|) || isTranslating {
        return [];
      }
      var message := messages[messageIndex];
      isTranslating := true;
      if message.detectedLang == selectedLanguage {
        messages := WithTranslationAt(messages, messageIndex, AlreadyInTargetLanguage);
        calls := [];
      } else {
        var translated;
        translated, calls := translator.TranslateText(host, message.text, message.detectedLang, selectedLanguage);
        messages := WithTranslationAt(messages, messageIndex, TranslationOutcome(translated));
      }
      isTranslating := false;
    }
  }

  /** Detection writes to whatever is last when it settles. Had further
      records been submitted meanwhile, the record that started detection
      would keep "detecting..." and the newest record would get its language. */
  lemma LateDetectionLandsOnNewestRecord(earlier: seq<Message>, pending: Message, later: seq<Message>, lang: Option<string>)
    requires later != []
    ensures var updated := WithLanguageAtLast(earlier + [pending] + later, lang);
      && updated[|earlier|] == pending
      && updated[|updated| - 1].detectedLang == LanguageOrUnknown(lang)
  {
  }

  /** Since `translateText` never rejects, "Translation error" is never what
      `handleTranslate` writes for its own reason: the record gets the
      translation when it is non-empty and "Translation failed" otherwise. */
  lemma TranslationErrorIsUnreachable(cache: Translator.Cache, host: Translator.TranslatorHost, text: string, source: string, target: string)
    ensures var t := Translator.TranslateTextStep(cache, host, text, source, target);
      TranslationOutcome(t.result)
        == if t.result.value.Some? && t.result.value.value != "" then t.result.value.value else TranslationFailed
  {
  }

  /** The selector only offers the six supported codes, none with `-`, so two
      translation requests share a cache entry exactly when they are for the
      same pair. */
  lemma SupportedTargetsKeepPairsApart(s1: string, i: nat, s2: string, j: nat)
    requires i < |Translator.SupportedLanguages()| && j < |Translator.SupportedLanguages()|
    ensures var t1, t2 := Translator.SupportedLanguages()[i].code, Translator.SupportedLanguages()[j].code;
      Translator.CacheKey(s1, t1) == Translator.CacheKey(s2, t2) <==> s1 == s2 && i == j
  {
    var langs := Translator.SupportedLanguages();
    Translator.CacheKeySeparatesPairsByTarget(s1, langs[i].code, s2, langs[j].code);
  }
}
