/** The summarizer service (src/service/summarize.jsx): host negotiation with
    fixed options, a singleton slot retried while empty, and a local length gate
    in front of every provider call. */
module Summarizer {
  import opened Wrappers
  import opened JsString

  /** The identity of a summarizer object the host created. */
  type Summarizer = nat

  /** The options object handed to `create`. */
  datatype SummarizerOptions = SummarizerOptions(kind: string, format: string, length: string)

  /** The one options value the service ever creates a summarizer with. */
  const KeyPointsOptions := SummarizerOptions("key-points", "text", "medium")

  /** Texts whose trimmed length is at most this many UTF-16 code units are not summarized. */
  const MinSummaryLength := 150

  /** A call into the host's summarizer API. */
  datatype SummarizerCall =
    | Capabilities
    | Create(options: SummarizerOptions)
    | AwaitReady(summarizer: Summarizer)
    | Summarize(summarizer: Summarizer, text: string)

  /** The host as this module sees it in one step. `available` is the
      `available` field of the object `capabilities()` resolves to. */
  datatype SummarizerHost = SummarizerHost(
    present: bool,
    available: Settled<string>,
    create: Settled<Summarizer>,
    ready: Settled<()>,
    summarize: Settled<string>)

  /** `initializeSummarizer()`. Only `capabilities()` is awaited outside the
      `try`: its rejection rejects the call; a failing `create` or `ready` is
      folded into null. */
  function InitializeSummarizer(host: SummarizerHost): (r: Traced<Settled<Option<Summarizer>>, SummarizerCall>)
    // the API is absent: null, and the host is not asked anything
    ensures !host.present ==> r == Traced(Fulfilled(None), [])
    // "no": null, and nothing is created
    ensures host.present && host.available == Fulfilled("no") ==> r == Traced(Fulfilled(None), [Capabilities])
    // a rejected capabilities() ends the call before anything is created
    ensures host.present && host.available.Rejected? ==> r.calls == [Capabilities]
    // a rejected create() goes straight to the catch: no further host call
    ensures host.present && host.available.Fulfilled? && host.available.value != "no" && host.create.Rejected? ==>
      r.calls == [Capabilities, Create(KeyPointsOptions)]
    // for every other answer the one creation uses the fixed options
    ensures host.present && host.available.Fulfilled? && host.available.value != "no" ==>
      2 <= |r.calls| && r.calls[..2] == [Capabilities, Create(KeyPointsOptions)]
    // only the non-"readily" path waits for the download to finish
    ensures forall i :: 0 <= i < |r.calls| && r.calls[i].AwaitReady? ==>
      i == 2 && host.available.Fulfilled? && host.available.value !in {"no", "readily"}
      && host.create == Fulfilled(r.calls[i].summarizer)
    // a summarizer is handed out only when the host created it (and it became ready)
    ensures r.result.Fulfilled? && r.result.value.Some? ==>
      && host.present && host.available.Fulfilled? && host.available.value != "no"
      && host.create == Fulfilled(r.result.value.value)
      && (host.available.value != "readily" ==> host.ready.Fulfilled?)
    // a created summarizer is returned: at once on "readily", otherwise once `ready` fulfils
    ensures host.present && host.available.Fulfilled? && host.available.value != "no" && host.create.Fulfilled? ==>
      && r.calls == [Capabilities, Create(KeyPointsOptions)]
                    + (if host.available.value == "readily" then [] else [AwaitReady(host.create.value)])
      && r.result == Fulfilled(if host.available.value == "readily" || host.ready.Fulfilled? then Some(host.create.value) else None)
    // the only rejection is that of capabilities(); creation errors become null
    ensures r.result.Rejected? <==> host.present && host.available.Rejected?
  {
    if !host.present then Traced(Fulfilled(None), [])
    else match host.available
      case Rejected => Traced(Rejected, [Capabilities])
      case Fulfilled(available) =>
        if available == "no" then Traced(Fulfilled(None), [Capabilities])
        else
          var options := KeyPointsOptions;
          var calls := [Capabilities, Create(options)];
          match host.create
          case Rejected => Traced(Fulfilled(None), calls)
          case Fulfilled(summarizer) =>
            if available == "readily" then Traced(Fulfilled(Some(summarizer)), calls)
            else if host.ready.Fulfilled? then Traced(Fulfilled(Some(summarizer)), calls + [AwaitReady(summarizer)])
            else Traced(Fulfilled(None), calls + [AwaitReady(summarizer)])
  }

  /** `getSummarizer()` on the slot `summarizerInstance`: a held summarizer is
      returned as it is; an empty slot takes whatever the initialisation
      resolves to, null included, so it is retried on the next call. */
  function GetSummarizerStep(slot: Option<Summarizer>, host: SummarizerHost): (r: Step<Settled<Option<Summarizer>>, Option<Summarizer>, SummarizerCall>)
    ensures slot.Some? ==> r == Step(Fulfilled(slot), slot, [])
    ensures slot.None? ==>
      var init := InitializeSummarizer(host);
      && r.result == init.result && r.calls == init.calls
      && r.state == (if init.result.Fulfilled? then init.result.value else None)
    ensures r.result.Fulfilled? ==> r.state == r.result.value
  {
    if slot.Some? then Step(Fulfilled(slot), slot, [])
    else
      var init := InitializeSummarizer(host);
      match init.result
      case Fulfilled(s) => Step(Fulfilled(s), s, init.calls)
      case Rejected => Step(Rejected, slot, init.calls)
  }

  /** The local gate `!text || text.trim().length <= 150`, where `.length`
      counts UTF-16 code units. All-white-space text never passes, and a text
      that passes has more than 75 characters once trimmed. */
  function TooShortToSummarize(text: string): (tooShort: bool)
    ensures AllWhitespace(text) ==> tooShort
    ensures !tooShort ==> |Trim(text)| > MinSummaryLength / 2
  {
    text == "" || Utf16Length(Trim(text)) <= MinSummaryLength
  }

  /** `summarizeText(text)`: a text that fails the gate gives null before the
      slot or the host is touched; `getSummarizer()` is awaited outside the
      `try`, so its rejection rejects; a missing summarizer gives null; a
      rejected `summarize` gives null and otherwise its output is returned
      unchanged. */
  function SummarizeTextStep(slot: Option<Summarizer>, host: SummarizerHost, text: string): (r: Step<Settled<Option<string>>, Option<Summarizer>, SummarizerCall>)
    ensures TooShortToSummarize(text) ==> r == Step(Fulfilled(None), slot, [])
    ensures !TooShortToSummarize(text) ==>
      var g := GetSummarizerStep(slot, host);
      && r.state == g.state
      && (g.result.Rejected? ==> r.result.Rejected? && r.calls == g.calls)
      && (g.result == Fulfilled(None) ==> r.result == Fulfilled(None) && r.calls == g.calls)
      && (g.result.Fulfilled? && g.result.value.Some? ==>
            && r.calls == g.calls + [Summarize(g.result.value.value, text)]
            && r.result == Fulfilled(if host.summarize.Fulfilled? then Some(host.summarize.value) else None))
    // a summary is only ever the provider's own output for the whole, untrimmed text
    ensures r.result.Fulfilled? && r.result.value.Some? ==>
      && host.summarize == Fulfilled(r.result.value.value)
      && 1 <= |r.calls| && r.calls[|r.calls| - 1].Summarize? && r.calls[|r.calls| - 1].text == text
  {
    if TooShortToSummarize(text) then Step(Fulfilled(None), slot, [])
    else
      var g := GetSummarizerStep(slot, host);
      match g.result
      case Rejected => Step(Rejected, g.state, g.calls)
      case Fulfilled(None) => Step(Fulfilled(None), g.state, g.calls)
      case Fulfilled(Some(summarizer)) =>
        var calls := g.calls + [Summarize(summarizer, text)];
        match host.summarize
        case Fulfilled(summary) => Step(Fulfilled(Some(summary)), g.state, calls)
        case Rejected => Step(Fulfilled(None), g.state, calls)
  }

  /** The module-level `summarizerInstance` slot and the functions that use it. */
  class SummarizerService {
    var instance: Option<Summarizer>

    constructor ()
      ensures instance == None
    {
      instance := None;
    }

    /** `getSummarizer()`. */
    method GetSummarizer(host: SummarizerHost) returns (r: Settled<Option<Summarizer>>, calls: seq<SummarizerCall>)
      modifies this
      ensures GetSummarizerStep(old(instance), host) == Step(r, instance, calls)
    {
      calls := [];
      if instance.None? {
        var init := InitializeSummarizer(host);
        calls := init.calls;
        if init.result.Rejected? {
          r := Rejected;
          return;
        }
        instance := init.result.value;
      }
      r := Fulfilled(instance);
    }

    /** `summarizeText(text)`. */
    method SummarizeText(host: SummarizerHost, text: string) returns (summary: Settled<Option<string>>, calls: seq<SummarizerCall>)
      modifies this
      ensures SummarizeTextStep(old(instance), host, text) == Step(summary, instance, calls)
    {
      if TooShortToSummarize(text) {
        return Fulfilled(None), [];
      }
      var summarizer;
      summarizer, calls := GetSummarizer(host);
      if summarizer.Rejected? {
        return Rejected, calls;
      }
      if summarizer.value.None? {
        return Fulfilled(None), calls;
      }
      calls := calls + [Summarize(summarizer.value.value, text)];
      if host.summarize.Fulfilled? {
        summary := Fulfilled(Some(host.summarize.value));
      } else {
        summary := Fulfilled(None);
      }
    }
  }

  /** The gate is on the trimmed length alone (`!text` adds nothing): white
      space around a text never lets it through, and a text of more than 150
      UTF-16 code units after trimming always passes. */
  lemma GateIsOnTrimmedLength(before: string, core: string, after: string)
    requires AllWhitespace(before) && AllWhitespace(after)
    requires core != [] && !IsWhitespace(core[0]) && !IsWhitespace(core[|core| - 1])
    ensures TooShortToSummarize(before + core + after) <==> Utf16Length(core) <= MinSummaryLength
  {
    TrimRemovesPadding(before, core, after);
  }

  /** Characters above U+FFFF count twice: a text of 76 to 150 such
      characters is 152 to 300 code units long, so it reaches the provider. */
  lemma AstralCharactersCountTwice(text: string)
    requires forall i :: 0 <= i < |text| ==> text[i] > '\U{FFFF}'
    requires |text| > MinSummaryLength / 2
    ensures !TooShortToSummarize(text)
  {
    assert Trim(text) == text by {
      assert !IsWhitespace(text[0]) && !IsWhitespace(text[|text| - 1]);
      assert [] + text + [] == text;
      TrimRemovesPadding([], text, []);
    }
    assert Utf16Length(text) == 2 * |text|;
  }

  /** A summarizer that could not be created leaves the slot empty, so the next
      call negotiates again and can succeed. */
  lemma FailedCreationIsRetried(failing: SummarizerHost, later: SummarizerHost, s: Summarizer)
    requires failing.present && failing.available.Fulfilled? && failing.available.value != "no"
    requires failing.create.Rejected?
    requires later.present && later.available == Fulfilled("readily") && later.create == Fulfilled(s)
    ensures GetSummarizerStep(None, failing) == Step(Fulfilled(None), None, [Capabilities, Create(KeyPointsOptions)])
    ensures GetSummarizerStep(GetSummarizerStep(None, failing).state, later).state == Some(s)
  {
  }
}
