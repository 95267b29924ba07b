/** The language-detector service (src/service/languagaeDetector.jsx): host
    negotiation, a singleton slot that memoises the detector once one exists,
    and the pick of the top detection result. */
module LanguageDetector {
  import opened Wrappers

  /** The identity of a detector object the host created. */
  type Detector = nat

  /** One entry of the list `detector.detect(text)` resolves to. */
  datatype DetectionResult = DetectionResult(detectedLanguage: string, confidence: real)

  /** The argument of `create`: none on the "readily" path, a download
      monitor otherwise. */
  datatype CreateOptions = NoOptions | WithMonitor

  /** A call into the host's language-detector API. */
  datatype DetectorCall =
    | Capabilities
    | Create(options: CreateOptions)
    | AwaitReady(detector: Detector)
    | Detect(detector: Detector, text: string)

  /** The host as this module sees it in one step: whether the API exists,
      and how each call it may receive would settle. `capabilities` is the
      `capabilities` field of the object `capabilities()` resolves to; `detect`
      is `None` when the result list is absent. */
  datatype DetectorHost = DetectorHost(
    present: bool,
    capabilities: Settled<string>,
    create: Settled<Detector>,
    ready: Settled<()>,
    detect: Settled<Option<seq<DetectionResult>>>)

  /** `initializeLanguageDetector()`. Nothing here catches: a rejected
      `capabilities()`, `create` or `ready` rejects the whole call. */
  function InitializeLanguageDetector(host: DetectorHost): (r: Traced<Settled<Option<Detector>>, DetectorCall>)
    // the API is absent: null, and the host is not asked anything
    ensures !host.present ==> r == Traced(Fulfilled(None), [])
    // otherwise capabilities() is always asked first
    ensures host.present ==> 1 <= |r.calls| && r.calls[0] == Capabilities
    // "no": null, and nothing is created
    ensures host.present && host.capabilities == Fulfilled("no") ==> r == Traced(Fulfilled(None), [Capabilities])
    // a rejected capabilities() ends the call before anything is created
    ensures host.present && host.capabilities.Rejected? ==> r.calls == [Capabilities]
    // "readily": create() without options, and no wait for readiness
    ensures host.present && host.capabilities == Fulfilled("readily") ==>
      r.calls == [Capabilities, Create(NoOptions)]
      && r.result == (if host.create.Fulfilled? then Fulfilled(Some(host.create.value)) else Rejected)
    // any other value: create() with a monitor, then await `ready` on it
    ensures host.present && host.capabilities.Fulfilled? && host.capabilities.value !in {"no", "readily"} ==>
      && 2 <= |r.calls| <= 3
      && r.calls[1] == Create(WithMonitor)
      && (host.create.Fulfilled? ==> r.calls[2..] == [AwaitReady(host.create.value)])
      // a rejected create() ends the call before `ready` is awaited
      && (host.create.Rejected? ==> r.calls == [Capabilities, Create(WithMonitor)])
    // on that path a created detector that becomes ready is handed out
    ensures && host.present && host.capabilities.Fulfilled? && host.capabilities.value !in {"no", "readily"}
            && host.create.Fulfilled? && host.ready.Fulfilled?
            ==> r.result == Fulfilled(Some(host.create.value))
    // a detector is handed out only when the host created it and is not "no"
    ensures r.result.Fulfilled? && r.result.value.Some? ==>
      && host.present && host.capabilities.Fulfilled? && host.capabilities.value != "no"
      && host.create == Fulfilled(r.result.value.value)
      && (host.capabilities.value != "readily" ==> host.ready.Fulfilled?)
    // errors are not folded into null: every rejection comes from the host
    ensures r.result.Rejected? <==>
      && host.present
      && (|| host.capabilities.Rejected?
          || (host.capabilities.value != "no"
              && (host.create.Rejected? || (host.capabilities.value != "readily" && host.ready.Rejected?))))
  {
    if !host.present then Traced(Fulfilled(None), [])
    else match host.capabilities
      case Rejected => Traced(Rejected, [Capabilities])
      case Fulfilled(canDetect) =>
        if canDetect == "no" then Traced(Fulfilled(None), [Capabilities])
        else if canDetect == "readily" then
          match host.create
          case Rejected => Traced(Rejected, [Capabilities, Create(NoOptions)])
          case Fulfilled(d) => Traced(Fulfilled(Some(d)), [Capabilities, Create(NoOptions)])
        else
          match host.create
          case Rejected => Traced(Rejected, [Capabilities, Create(WithMonitor)])
          case Fulfilled(d) =>
            var calls := [Capabilities, Create(WithMonitor), AwaitReady(d)];
            if host.ready.Fulfilled? then Traced(Fulfilled(Some(d)), calls) else Traced(Rejected, calls)
  }

  /** `getDetector()` on the slot `detectorInstance`: a held detector is
      returned as it is; an empty slot is filled with whatever the
      initialisation resolves to, null included, so an empty slot is retried on
      the next call. A rejected initialisation rejects and leaves the slot as
      it was. */
  function GetDetectorStep(slot: Option<Detector>, host: DetectorHost): (r: Step<Settled<Option<Detector>>, Option<Detector>, DetectorCall>)
    ensures slot.Some? ==> r == Step(Fulfilled(slot), slot, [])
    ensures slot.None? ==>
      var init := InitializeLanguageDetector(host);
      && r.result == init.result && r.calls == init.calls
      && r.state == (if init.result.Fulfilled? then init.result.value else None)
    ensures r.result.Fulfilled? ==> r.state == r.result.value
  {
    if slot.Some? then Step(Fulfilled(slot), slot, [])
    else
      var init := InitializeLanguageDetector(host);
      match init.result
      case Fulfilled(d) => Step(Fulfilled(d), d, init.calls)
      case Rejected => Step(Rejected, slot, init.calls)
  }

  /** The top-result pick of `detectLanguage`: the language of the first entry
      of a non-empty list, whatever the confidences; null for an absent or
      empty list or a rejected `detect`. */
  function TopLanguage(detected: Settled<Option<seq<DetectionResult>>>): (lang: Option<string>)
    ensures lang.Some? <==> detected.Fulfilled? && detected.value.Some? && |detected.value.value| > 0
    ensures lang.Some? ==> lang.value == detected.value.value[0].detectedLanguage
  {
    match detected
    case Fulfilled(Some(results)) => if |results| > 0 then Some(results[0].detectedLanguage) else None
    case _ => None
  }

  /** `detectLanguage(text)`: `getDetector()` is awaited outside the `try`, so
      its rejection rejects; a missing detector gives null without calling
      `detect`; anything `detect` does is folded into a language or null. */
  function DetectLanguageStep(slot: Option<Detector>, host: DetectorHost, text: string): (r: Step<Settled<Option<string>>, Option<Detector>, DetectorCall>)
    ensures var g := GetDetectorStep(slot, host);
      && r.state == g.state
      && (g.result.Rejected? ==> r.result.Rejected? && r.calls == g.calls)
      && (g.result == Fulfilled(None) ==> r.result == Fulfilled(None) && r.calls == g.calls)
      && (g.result.Fulfilled? && g.result.value.Some? ==>
            r.result == Fulfilled(TopLanguage(host.detect))
            && r.calls == g.calls + [Detect(g.result.value.value, text)])
    // the text is handed to the detector at most once, and only to the one in the slot afterwards
    ensures forall i :: 0 <= i < |r.calls| && r.calls[i].Detect? ==>
      i == |r.calls| - 1 && r.state.Some? && r.calls[i] == Detect(r.state.value, text)
  {
    var g := GetDetectorStep(slot, host);
    match g.result
    case Rejected => Step(Rejected, g.state, g.calls)
    case Fulfilled(None) => Step(Fulfilled(None), g.state, g.calls)
    case Fulfilled(Some(d)) => Step(Fulfilled(TopLanguage(host.detect)), g.state, g.calls + [Detect(d, text)])
  }

  /** The module-level `detectorInstance` slot and the two functions that use it. */
  class DetectorService {
    var instance: Option<Detector>

    constructor ()
      ensures instance == None
    {
      instance := None;
    }

    /** `getDetector()`. */
    method GetDetector(host: DetectorHost) returns (r: Settled<Option<Detector>>, calls: seq<DetectorCall>)
      modifies this
      ensures GetDetectorStep(old(instance), host) == Step(r, instance, calls)
    {
      calls := [];
      if instance.None? {
        var init := InitializeLanguageDetector(host);
        calls := init.calls;
        if init.result.Rejected? {
          r := Rejected;
          return;
        }
        instance := init.result.value;
      }
      r := Fulfilled(instance);
    }

    /** `detectLanguage(text)`. */
    method DetectLanguage(host: DetectorHost, text: string) returns (lang: Settled<Option<string>>, calls: seq<DetectorCall>)
      modifies this
      ensures DetectLanguageStep(old(instance), host, text) == Step(lang, instance, calls)
    {
      var detector;
      detector, calls := GetDetector(host);
      if detector.Rejected? {
        return Rejected, calls;
      }
      if detector.value.None? {
        return Fulfilled(None), calls;
      }
      calls := calls + [Detect(detector.value.value, text)];
      var results := host.detect;
      if results.Fulfilled? && results.value.Some? && |results.value.value| > 0 {
        var topResult := results.value.value[0];
        lang := Fulfilled(Some(topResult.detectedLanguage));
      } else {
        lang := Fulfilled(None);
      }
    }
  }

  /** Calls of `getDetector()` one after another, each answered by the next host. */
  function GetDetectorRun(slot: Option<Detector>, hosts: seq<DetectorHost>): Step<seq<Settled<Option<Detector>>>, Option<Detector>, DetectorCall>
    decreases |hosts|
  {
    if hosts == [] then Step([], slot, [])
    else
      var first := GetDetectorStep(slot, hosts[0]);
      var rest := GetDetectorRun(first.state, hosts[1..]);
      Step([first.result] + rest.result, rest.state, first.calls + rest.calls)
  }

  /** There is no permanent negative result: however many calls were answered
      "no", the slot stays empty and every call asks the host again. */
  lemma {:induction false} EveryRefusedCallAsksAgain(hosts: seq<DetectorHost>)
    requires forall i :: 0 <= i < |hosts| ==> hosts[i].present && hosts[i].capabilities == Fulfilled("no")
    ensures var run := GetDetectorRun(None, hosts);
      && run.state == None
      && run.calls == seq(|hosts|, _ => Capabilities)
      && run.result == seq(|hosts|, _ => Fulfilled(None))
  {
    if hosts != [] {
      EveryRefusedCallAsksAgain(hosts[1..]);
    }
  }

  /** Once the slot holds a detector, no later call asks the host anything and
      every call hands out that same detector. */
  lemma {:induction false} HeldDetectorIsKept(d: Detector, hosts: seq<DetectorHost>)
    ensures var run := GetDetectorRun(Some(d), hosts);
      && run.state == Some(d)
      && run.calls == []
      && run.result == seq(|hosts|, _ => Fulfilled(Some(d)))
  {
    if hosts != [] {
      HeldDetectorIsKept(d, hosts[1..]);
    }
  }

  /** A refusal does not stop a later success: after "no", a host that can
      now create a detector "readily" fills the slot. */
  lemma RefusalThenSuccess(refusing: DetectorHost, ready: DetectorHost, d: Detector)
    requires refusing.present && refusing.capabilities == Fulfilled("no")
    requires ready.present && ready.capabilities == Fulfilled("readily") && ready.create == Fulfilled(d)
    ensures GetDetectorRun(None, [refusing, ready]).state == Some(d)
    ensures GetDetectorRun(None, [refusing, ready]).calls == [Capabilities, Capabilities, Create(NoOptions)]
  {
    assert [refusing, ready][1..] == [ready];
    assert [ready][1..] == [];
    assert GetDetectorStep(None, refusing) == Step(Fulfilled(None), None, [Capabilities]);
    assert GetDetectorStep(None, ready) == Step(Fulfilled(Some(d)), Some(d), [Capabilities, Create(NoOptions)]);
    assert GetDetectorRun(Some(d), []) == Step([], Some(d), []);
    assert GetDetectorRun(None, [ready]).calls == [Capabilities, Create(NoOptions)];
  }
}
