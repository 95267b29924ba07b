# AI text processor: the chat controller and its three browser AI services

This project is a Dafny model of the logic that sits between the chat list of
the AI text processor and the browser's built-in AI services. A user submits
text. Each record's language is detected automatically. A record can then be
translated into the language chosen in the selector. A separate summarizer
service gates texts by length before it calls its provider.

The model covers four source files, one Dafny module each:

- `App` (src/App.jsx). The `ChatApp` class holds `inputText`, `messages`,
  `selectedLanguage` and the app-wide `isTranslating` flag.
  - `HandleSend` ignores blank input. Otherwise it appends a
    `"detecting..."` record, then writes the detected language into the last
    list position.
  - `HandleTranslate` is guarded by the single flag. It short-circuits with a
    sentinel when the source and target languages are equal. It writes the
    translation, `"Translation failed"` or `"Translation error"` into the
    indexed record only.
- `Translator` (src/service/translator.jsx). This module holds the six-row
  language table and the translator cache keyed by `source-target`. The cache
  is filled on a successful creation and never evicted. `translateText`
  folds every failure into null.
- `Summarizer` (src/service/summarize.jsx). This module holds the decision on
  the availability answer (`"no"`, `"readily"`, anything else), the fixed
  creation options and the memo slot. The slot is retried while it is empty.
  The length gate is on the trimmed text.
- `LanguageDetector` (src/service/languagaeDetector.jsx). This module uses the
  same availability and memo pattern, and picks the language of the first
  result.

Two helper modules support them. `Wrappers` holds the JavaScript `null` as
`Option`, a settled promise as `Settled` (`Fulfilled(v)` or `Rejected`), and
the records a step produces. `JsString` models ECMAScript `trim()` with its
full white-space set.

Host calls (`capabilities`, `create`, `ready`, `detect`, `translate`,
`summarize`) are oracles. Each service takes a host record (`DetectorHost`,
`TranslatorHost`, `SummarizerHost`). The record says whether the API exists
and how each call would settle in this step. Every operation returns the
host calls it actually made, in order, so "the provider is never invoked"
reads `calls == []`.

Each module-level singleton is a class with one field:
- `detectorInstance` is `DetectorService.instance`;
- `summarizerInstance` is `SummarizerService.instance`;
- `translatorCache` is `TranslatorService.cache`.

Each method's postcondition equates its result, new state and calls with a
pure step function (`GetDetectorStep`, `GetTranslatorStep`,
`SummarizeTextStep`, …). The properties are proved about those functions.

The model keeps the code's own behaviour, including:
- one app-wide translation flag, not a per-message guard;
- the language written to the last list position, not to the record's
  identity;
- memo slots retried on every call while empty, with no permanent
  "unavailable" result and no single-flight;
- a rejected `capabilities()` propagates: it is not treated as unavailable;
- the summary gate is on the trimmed length, counted in UTF-16 code units as JavaScript's `.length` counts;
- translation outcomes are the strings the code writes, not a status machine.

## Model

| member | source | states |
|---|---|---|
| `JsString.TextStart` | src/App.jsx:23 | the first position not holding white space: everything before it is white space |
| `JsString.TextEnd` | src/App.jsx:23 | the end of the text: everything after it is white space and the character before it is not |
| `JsString.Trim` | src/App.jsx:23 | `trim()` is a contiguous piece of the input with no white space at either end; it is empty exactly when the input is all white space |
| `JsString.IsBlank` | src/App.jsx:23 | `!inputText.trim()` holds exactly for all-white-space input, the empty string included |
| `JsString.Utf16Length` | src/service/summarize.jsx:58 | `.length` counts UTF-16 code units: between one and two per character, exactly one each when all are at most U+FFFF, exactly two each when all are above |
| `JsString.Utf16LengthAppend` | src/service/summarize.jsx:58 | code units add up over concatenation, so a mixed text counts one per character up to U+FFFF and two per character above, wherever they stand |
| `JsString.TrimRemovesPadding` | src/service/summarize.jsx:58 | white space around a text whose ends are not white space is exactly what trimming removes |
| `LanguageDetector.InitializeLanguageDetector` | src/service/languagaeDetector.jsx:1-31 | no API: null and no host call; `"no"`: null after one `capabilities()`; `"readily"`: `create()` without options; anything else: `create` with a monitor, then `ready` awaited, and the created detector returned once `ready` fulfils; a detector is returned only if the host created it; rejections are not caught |
| `LanguageDetector.GetDetectorStep` | src/service/languagaeDetector.jsx:34-41 | a held detector is returned with no host call; an empty slot takes whatever initialisation resolves to, null included; a rejection leaves the slot empty |
| `LanguageDetector.TopLanguage` | src/service/languagaeDetector.jsx:48-53 | a language exactly for a non-empty result list, and then the first entry's `detectedLanguage`; null for an absent or empty list or a throwing `detect` |
| `LanguageDetector.DetectLanguageStep` | src/service/languagaeDetector.jsx:43-58 | no detector: null and no `detect` call; a rejected `getDetector` rejects; otherwise one `detect` on the slot's detector with the text, then the top pick |
| `LanguageDetector.DetectorService.constructor` | src/service/languagaeDetector.jsx:34 | the slot starts empty |
| `LanguageDetector.DetectorService.GetDetector` | src/service/languagaeDetector.jsx:36-41 | result, new slot and host calls are those of `GetDetectorStep` on the old slot |
| `LanguageDetector.DetectorService.DetectLanguage` | src/service/languagaeDetector.jsx:43-58 | result, new slot and host calls are those of `DetectLanguageStep` on the old slot |
| `LanguageDetector.EveryRefusedCallAsksAgain` | src/service/languagaeDetector.jsx:11-14 | however many calls get `"no"`, the slot stays empty and each call asks `capabilities()` again: no negative result is remembered |
| `LanguageDetector.HeldDetectorIsKept` | src/service/languagaeDetector.jsx:36-41 | once the slot holds a detector, any number of later calls return it and make no host call |
| `LanguageDetector.RefusalThenSuccess` | src/service/languagaeDetector.jsx:36-41 | after a `"no"`, a later `"readily"` host fills the slot with its detector |
| `Summarizer.InitializeSummarizer` | src/service/summarize.jsx:7-48 | no API: null and no host call; `"no"`: null; every other answer creates with `{key-points, text, medium}`; a created summarizer is returned at once on `"readily"`, otherwise `ready` is awaited on it and it is returned exactly when `ready` fulfils; creation and readiness errors become null; only a rejected `capabilities()` rejects |
| `Summarizer.GetSummarizerStep` | src/service/summarize.jsx:50-55 | a held summarizer is returned with no host call; an empty slot takes whatever initialisation resolves to, so a null result is retried next time |
| `Summarizer.SummarizeTextStep` | src/service/summarize.jsx:57-78 | a text failing the gate gives null with the slot unchanged and no host call; a missing summarizer gives null; a throwing `summarize` gives null; otherwise exactly the provider's output for the untrimmed text |
| `Summarizer.SummarizerService.constructor` | src/service/summarize.jsx:1 | the slot starts empty |
| `Summarizer.SummarizerService.GetSummarizer` | src/service/summarize.jsx:50-55 | result, new slot and host calls are those of `GetSummarizerStep` on the old slot |
| `Summarizer.SummarizerService.SummarizeText` | src/service/summarize.jsx:57-78 | result, new slot and host calls are those of `SummarizeTextStep` on the old slot |
| `Summarizer.TooShortToSummarize` | src/service/summarize.jsx:58 | all-white-space text never passes the gate, and a text that passes has more than 75 characters once trimmed |
| `Summarizer.GateIsOnTrimmedLength` | src/service/summarize.jsx:58-61 | a padded text passes the gate exactly when its trimmed core exceeds 150 UTF-16 code units, whatever the padding |
| `Summarizer.AstralCharactersCountTwice` | src/service/summarize.jsx:58 | a text of more than 75 characters all above U+FFFF passes the gate, since each counts as two code units |
| `Summarizer.FailedCreationIsRetried` | src/service/summarize.jsx:44-55 | a failed `create` leaves the slot empty, and the next call can fill it |
| `Translator.SupportedLanguages` | src/service/translator.jsx:1-8 | six rows whose codes are distinct, free of `-`, and drawn from en, pt, es, ru, tr, fr, so each of those appears once |
| `Translator.CacheKey` | src/service/translator.jsx:23 | the key `source-target` is the source, a `-` right after it, then the target |
| `Translator.CacheKeySeparatesPairsBySource` | src/service/translator.jsx:23 | when neither source contains `-`, two keys are equal exactly when the pairs are |
| `Translator.CacheKeySeparatesPairsByTarget` | src/service/translator.jsx:23 | when neither target contains `-`, two keys are equal exactly when the pairs are |
| `Translator.HyphenatedCodesCanCollide` | src/service/translator.jsx:23 | without either condition, the distinct pairs (zh-Hant, en) and (zh, Hant-en) share one key |
| `Translator.GetTranslatorStep` | src/service/translator.jsx:17-44 | no API: null, cache untouched; a hit returns the stored translator without `create`; a miss calls `create` once for the pair, stores a success under its key and stores nothing on failure; entries are only added |
| `Translator.TranslateTextStep` | src/service/translator.jsx:46-57 | never rejects; no translator or a throwing `translate` gives null; otherwise the translator's output for the text |
| `Translator.TranslatorService.constructor` | src/service/translator.jsx:11 | the cache starts empty |
| `Translator.TranslatorService.GetTranslator` | src/service/translator.jsx:17-44 | result, new cache and host calls are those of `GetTranslatorStep` on the old cache |
| `Translator.TranslatorService.TranslateText` | src/service/translator.jsx:46-57 | result, new cache and host calls are those of `TranslateTextStep` on the old cache |
| `Translator.SamePairSameTranslator` | src/service/translator.jsx:23-39 | after a pair produced a translator, the next request for the pair returns the identical translator with no `create` and no cache change |
| `Translator.FailedCreationIsRetried` | src/service/translator.jsx:40-43 | a failed `create` leaves the cache as it was, so the next request calls `create` again |
| `Translator.CacheNeverEvicts` | src/service/translator.jsx:11-38 | over any sequence of requests every stored translator stays under its key, and every key present was requested |
| `App.LanguageOrUnknown` | src/App.jsx:43 | the fallback `lang or "unknown"`: the language when non-empty, "unknown" for null or empty, never empty |
| `App.WithLanguageAtLast` | src/App.jsx:40-46 | only the element at `length-1` changes, and only its `detectedLang`; the length and all other elements stay |
| `App.WithTranslationAt` | src/App.jsx:78-82 | only the element at the index changes, and only its `translated`; the length, all other elements and every `text` stay |
| `App.TranslationOutcome` | src/App.jsx:77-100 | non-empty result: the result; null or empty: "Translation failed"; thrown: "Translation error"; never empty |
| `App.ChatApp.constructor` | src/App.jsx:7-11 | empty input, empty list, target "en", flag lowered |
| `App.ChatApp.HandleSend` | src/App.jsx:22-47 | blank input changes nothing; otherwise exactly one record (input, "detecting...", "", "") is appended and the input cleared; on detection the last element takes the language; a rejected detection leaves "detecting..." |
| `App.ChatApp.HandleTranslate` | src/App.jsx:49-104 | out-of-range index or raised flag: no-op; same language: the sentinel with no translator call; otherwise the outcome of `translateText`; only the indexed record changes, no text or length ever does, and the flag ends as it started: lowered after every call that passed the guard |
| `App.LateDetectionLandsOnNewestRecord` | src/App.jsx:40-46 | if records were added while detection was pending, the pending record keeps "detecting..." and the newest record gets its language |
| `App.TranslationErrorIsUnreachable` | src/App.jsx:92-100 | since `translateText` never rejects, the handler writes the translation or "Translation failed", never its own "Translation error" |
| `App.SupportedTargetsKeepPairsApart` | src/App.jsx:119-128 | with targets taken from the selector's six codes, two requests share a cache key exactly when source and target are equal |

## Left out

- The JSX view: the list, the `<select>`, the buttons and the CSS (src/App.jsx:106-163). The selected language is a plain field.
- The `initDetector` effect and the `detector` state it fills (src/App.jsx:10, 13-20). Nothing reads that state.
- React mechanics: stale closures, batched functional updates and the interleaving of concurrent `await`s. Each handler is one sequential step. So the app-wide flag acts only as the entry guard. `LateDetectionLandsOnNewestRecord` states what the last-index update does when records arrive meanwhile.
- The `window.ai` services themselves. They are oracles whose answers are parameters. `isTranslatorSupported` and `isSummarizerSupported` are the host's `supported`/`present` flag.
- Download-progress listeners, the detector's `monitor` body and all `console` logging. The summarizer's `addEventListener` call is left out too, including a failure of that call.
- Lone surrogates: a Dafny `char` is a Unicode scalar value, so a JavaScript string holding an unpaired surrogate code unit has no counterpart here.
- JavaScript values other than strings. A `null` text passed to `summarizeText` and a non-integer message index are not modelled. Host-created objects are taken to be truthy.
- The `confidence` of detection results is carried but unused, as in the source.
- The `summary` field of a record is never written, because nothing in the controller calls `summarizeText`.
