/** The translator service (src/service/translator.jsx): the table of target
    languages, a never-evicted cache of translators keyed by language pair, and
    a translation call that folds every failure into null. */
module Translator {
  import opened Wrappers

  /** The identity of a translator object the host created. */
  type Translator = nat

  /** A row of the language selector. */
  datatype Language = Language(code: string, name: string)

  /** `supportedLanguages`: six target languages, each code distinct and free of `-`. */
  function SupportedLanguages(): (langs: seq<Language>)
    ensures |langs| == 6
    ensures forall i, j :: 0 <= i < j < |langs| ==> langs[i].code != langs[j].code
    ensures forall i :: 0 <= i < |langs| ==> '-' !in langs[i].code
    // six distinct codes drawn from these six: each of them appears exactly once
    ensures forall i :: 0 <= i < |langs| ==> langs[i].code in {"en", "pt", "es", "ru", "tr", "fr"}
  {
    [ Language("en", "English"),
      Language("pt", "Portuguese"),
      Language("es", "Spanish"),
      Language("ru", "Russian"),
      Language("tr", "Turkish"),
      Language("fr", "French") ]
  }

  /** The cache key `${source}-${target}`: the source, then the separator `-`
      right after it, then the target. */
  function CacheKey(source: string, target: string): (key: string)
    ensures |key| == |source| + 1 + |target|
    ensures key[|source|] == '-'
    ensures key[..|source|] == source && key[|source| + 1..] == target
    ensures forall i :: 0 <= i < |source| ==> key[i] == source[i]
    ensures forall i :: 0 <= i < |target| ==> key[|source| + 1 + i] == target[i]
  {
    source + "-" + target
  }

  /** When neither source contains `-`, the first `-` of a key ends its
      source, so equal keys come from equal pairs. */
  lemma CacheKeySeparatesPairsBySource(s1: string, t1: string, s2: string, t2: string)
    requires '-' !in s1 && '-' !in s2
    ensures CacheKey(s1, t1) == CacheKey(s2, t2) <==> s1 == s2 && t1 == t2
  {
    var k1, k2 := CacheKey(s1, t1), CacheKey(s2, t2);
    if k1 == k2 {
      // both sources end at the key's first `-`
      assert forall i :: 0 <= i < |s1| ==> k1[i] != '-';
      assert forall i :: 0 <= i < |s2| ==> k2[i] != '-';
      assert |s1| == |s2|;
      assert s1 == k1[..|s1|] && t1 == k1[|s1| + 1..];
    }
  }

  /** The same holds when neither target contains `-`: the last `-` of a key
      starts its target. The application's targets are the codes of
      `SupportedLanguages()`. */
  lemma CacheKeySeparatesPairsByTarget(s1: string, t1: string, s2: string, t2: string)
    requires '-' !in t1 && '-' !in t2
    ensures CacheKey(s1, t1) == CacheKey(s2, t2) <==> s1 == s2 && t1 == t2
  {
    var k1, k2 := CacheKey(s1, t1), CacheKey(s2, t2);
    if k1 == k2 {
      // both targets start after the key's last `-`
      assert forall i :: |s1| < i < |k1| ==> k1[i] != '-';
      assert forall i :: |s2| < i < |k2| ==> k2[i] != '-';
      assert |t1| == |t2|;
      assert s1 == k1[..|s1|] && t1 == k1[|s1| + 1..];
    }
  }

  /** Without either condition two different pairs can share one cache entry. */
  lemma HyphenatedCodesCanCollide()
    ensures CacheKey("zh-Hant", "en") == CacheKey("zh", "Hant-en")
  {
    assert CacheKey("zh-Hant", "en") == "zh-Hant" + "-" + "en" == "zh-Hant-en";
    assert CacheKey("zh", "Hant-en") == "zh" + "-" + "Hant-en" == "zh-Hant-en";
  }

  /** A call into the host's translator API. */
  datatype TranslatorCall =
    | Create(sourceLanguage: string, targetLanguage: string)
    | Translate(translator: Translator, text: string)

  /** The host as this module sees it in one step: whether the API exists, and
      how `create` and `translate` would settle if called. */
  datatype TranslatorHost = TranslatorHost(
    supported: bool,
    create: Settled<Translator>,
    translate: Settled<string>)

  /** The contents of `translatorCache`. */
  type Cache = map<string, Translator>

  /** `after` keeps every entry of `before` with the same translator. */
  ghost predicate Extends(before: Cache, after: Cache)
  {
    forall key :: key in before ==> key in after && after[key] == before[key]
  }

  /** `getTranslator(source, target)`. */
  function GetTranslatorStep(cache: Cache, host: TranslatorHost, source: string, target: string): (r: Step<Option<Translator>, Cache, TranslatorCall>)
    // no API: null before the cache is read or written
    ensures !host.supported ==> r == Step(None, cache, [])
    // a hit: the cached translator, without calling create
    ensures host.supported && CacheKey(source, target) in cache ==>
      r == Step(Some(cache[CacheKey(source, target)]), cache, [])
    // a miss: one create for exactly this pair; a success is stored under its key, a failure stores nothing
    ensures host.supported && CacheKey(source, target) !in cache ==>
      && r.calls == [Create(source, target)]
      && (host.create.Fulfilled? ==>
            r.result == Some(host.create.value) && r.state == cache[CacheKey(source, target) := host.create.value])
      && (host.create.Rejected? ==> r.result == None && r.state == cache)
    // entries are only added, never removed or replaced, and only under the requested key
    ensures Extends(cache, r.state) && r.state.Keys <= cache.Keys + {CacheKey(source, target)}
    // whatever is handed out is what the cache now holds for the pair
    ensures r.result.Some? ==> CacheKey(source, target) in r.state && r.state[CacheKey(source, target)] == r.result.value
  {
    if !host.supported then Step(None, cache, [])
    else
      var cacheKey := CacheKey(source, target);
      if cacheKey in cache then Step(Some(cache[cacheKey]), cache, [])
      else match host.create
        case Fulfilled(translator) => Step(Some(translator), cache[cacheKey := translator], [Create(source, target)])
        case Rejected => Step(None, cache, [Create(source, target)])
  }

  /** `translateText(text, source, target)`: its whole body sits in a `try`,
      so it never rejects; no translator, or a rejected `translate`, gives null. */
  function TranslateTextStep(cache: Cache, host: TranslatorHost, text: string, source: string, target: string): (r: Step<Settled<Option<string>>, Cache, TranslatorCall>)
    ensures r.result.Fulfilled?
    ensures var g := GetTranslatorStep(cache, host, source, target);
      && r.state == g.state
      && (g.result.None? ==> r.result.value.None? && r.calls == g.calls)
      && (g.result.Some? ==>
            && r.calls == g.calls + [Translate(g.result.value, text)]
            && r.result.value == (if host.translate.Fulfilled? then Some(host.translate.value) else None))
    // a translation is only ever the output of the translator for this pair, given this text
    ensures r.result.value.Some? ==>
      && host.translate == Fulfilled(r.result.value.value)
      && 1 <= |r.calls| && r.calls[|r.calls| - 1].Translate? && r.calls[|r.calls| - 1].text == text
      && r.state[CacheKey(source, target)] == r.calls[|r.calls| - 1].translator
  {
    var g := GetTranslatorStep(cache, host, source, target);
    match g.result
    case None => Step(Fulfilled(None), g.state, g.calls)
    case Some(translator) =>
      var calls := g.calls + [Translate(translator, text)];
      match host.translate
      case Fulfilled(translatedText) => Step(Fulfilled(Some(translatedText)), g.state, calls)
      case Rejected => Step(Fulfilled(None), g.state, calls)
  }

  /** The module-level `translatorCache` and the functions that use it. */
  class TranslatorService {
    var cache: Cache

    constructor ()
      ensures cache == map[]
    {
      cache := map[];
    }

    /** `getTranslator(source, target)`. */
    method GetTranslator(host: TranslatorHost, source: string, target: string)
      returns (translator: Option<Translator>, calls: seq<TranslatorCall>)
      modifies this
      ensures GetTranslatorStep(old(cache), host, source, target) == Step(translator, cache, calls)
    {
      if !host.supported {
        return None, [];
      }
      var cacheKey := CacheKey(source, target);
      if cacheKey in cache {
        return Some(cache[cacheKey]), [];
      }
      calls := [Create(source, target)];
      if host.create.Rejected? {
        return None, calls;
      }
      translator := Some(host.create.value);
      cache := cache[cacheKey := host.create.value];
    }

    /** `translateText(text, source, target)`. */
    method TranslateText(host: TranslatorHost, text: string, source: string, target: string)
      returns (translated: Settled<Option<string>>, calls: seq<TranslatorCall>)
      modifies this
      ensures TranslateTextStep(old(cache), host, text, source, target) == Step(translated, cache, calls)
    {
      var translator;
      translator, calls := GetTranslator(host, source, target);
      if translator.None? {
        return Fulfilled(None), calls;
      }
      calls := calls + [Translate(translator.value, text)];
      if host.translate.Fulfilled? {
        translated := Fulfilled(Some(host.translate.value));
      } else {
        translated := Fulfilled(None);
      }
    }
  }

  /** A second request for a pair that produced a translator gets the identical
      translator back, and the host is not asked to create another. */
  lemma SamePairSameTranslator(cache: Cache, first: TranslatorHost, second: TranslatorHost, source: string, target: string)
    requires GetTranslatorStep(cache, first, source, target).result.Some?
    requires second.supported
    ensures var one := GetTranslatorStep(cache, first, source, target);
      GetTranslatorStep(one.state, second, source, target) == Step(one.result, one.state, [])
  {
  }

  /** A failed creation is not remembered: the next request for the pair asks
      the host to create again. */
  lemma FailedCreationIsRetried(cache: Cache, failing: TranslatorHost, later: TranslatorHost, source: string, target: string)
    requires failing.supported && failing.create.Rejected? && CacheKey(source, target) !in cache
    requires later.supported
    ensures GetTranslatorStep(cache, failing, source, target).state == cache
    ensures GetTranslatorStep(GetTranslatorStep(cache, failing, source, target).state, later, source, target).calls
      == [Create(source, target)]
  {
  }

  /** One request of a session: the language pair and how the host answers it. */
  datatype Request = Request(source: string, target: string, host: TranslatorHost)

  /** The cache after serving `requests` one after another through `getTranslator`. */
  function CacheAfter(cache: Cache, requests: seq<Request>): Cache
    decreases |requests|
  {
    if requests == [] then cache
    else
      var r := requests[0];
      CacheAfter(GetTranslatorStep(cache, r.host, r.source, r.target).state, requests[1..])
  }

  /** Over a whole session the cache is never evicted: every translator stored
      stays under its key, and every key present was requested. */
  lemma {:induction false} CacheNeverEvicts(cache: Cache, requests: seq<Request>)
    decreases |requests|
    ensures Extends(cache, CacheAfter(cache, requests))
    ensures forall key :: key in CacheAfter(cache, requests) ==>
      key in cache || exists i :: 0 <= i < |requests| && key == CacheKey(requests[i].source, requests[i].target)
  {
    if requests != [] {
      var r := requests[0];
      var next := GetTranslatorStep(cache, r.host, r.source, r.target).state;
      CacheNeverEvicts(next, requests[1..]);
      forall key | key in CacheAfter(cache, requests)
        ensures key in cache || exists i :: 0 <= i < |requests| && key == CacheKey(requests[i].source, requests[i].target)
      {
        if key !in cache && key != CacheKey(r.source, r.target) {
          assert key !in next;
          var i :| 0 <= i < |requests[1..]| && key == CacheKey(requests[1..][i].source, requests[1..][i].target);
          assert requests[1..][i] == requests[i + 1];
        }
      }
    }
  }
}
