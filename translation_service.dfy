/** The translation service: `translateText` answers from a three-level
    cache (source language, target language, text) when it can, and
    otherwise asks the translation endpoint, caching what comes back. The
    endpoint is a function parameter; None stands for a failed request. */
module TranslationService {
  import opened Wrappers

  /** `translationCache[from][to][text]`. */
  type Cache = map<string, map<string, map<string, string>>>

  datatype TranslateOptions = TranslateOptions(from: Option<string>, to: string, cache: Option<bool>)

  /** `options.from || 'en'`. */
  function SourceLanguage(o: TranslateOptions): (lang: string)
    ensures lang != ""
    ensures o.from.Some? && o.from.value != "" ==> lang == o.from.value
  {
    if o.from.None? || o.from.value == "" then "en" else o.from.value
  }

  /** `options.cache !== false`: caching is on unless turned off. */
  predicate UseCache(o: TranslateOptions)
  {
    o.cache != Some(false)
  }

  /** `translationCache[from]?.[to]?.[text] || null`: an empty cached
      string counts as a miss. */
  function Cached(c: Cache, from: string, to: string, text: string): (r: Option<string>)
    ensures r.Some? <==> from in c && to in c[from] && text in c[from][to] && c[from][to][text] != ""
    ensures r.Some? ==> r.value == c[from][to][text]
  {
    if from in c && to in c[from] && text in c[from][to] && c[from][to][text] != "" then Some(c[from][to][text])
    else None
  }

  /** The three branches that store a translation. */
  function Store(c: Cache, from: string, to: string, text: string, translated: string): Cache
  {
    if from !in c then c[from := map[to := map[text := translated]]]
    else if to !in c[from] then c[from := c[from][to := map[text := translated]]]
    else c[from := c[from][to := c[from][to][text := translated]]]
  }

  /** Storing makes the entry readable and leaves every other entry as it was. */
  lemma StoreThenRead(c: Cache, from: string, to: string, text: string, translated: string,
                      from': string, to': string, text': string)
    ensures var c' := Store(c, from, to, text, translated);
      from in c' && to in c'[from] && text in c'[from][to] && c'[from][to][text] == translated
      && ((from', to', text') != (from, to, text) ==>
            Cached(c', from', to', text') == Cached(c, from', to', text'))
  {
  }

  /** `translate`: the endpoint's answer, or the text itself when the
      request fails. */
  function Endpoint(text: string, from: string, to: string, endpoint: (string, string, string) -> Option<string>): string
  {
    var answer := endpoint(text, from, to);
    if answer.Some? then answer.value else text
  }

  /** What one call returns, whether it asked the endpoint, and the cache after it. */
  datatype Outcome = Outcome(result: string, askedEndpoint: bool, cache: Cache)

  function TranslateSpec(c: Cache, text: string, o: TranslateOptions,
                         endpoint: (string, string, string) -> Option<string>): (r: Outcome)
    ensures SourceLanguage(o) == o.to ==> r == Outcome(text, false, c)
    ensures SourceLanguage(o) != o.to && UseCache(o) && Cached(c, SourceLanguage(o), o.to, text).Some? ==>
      r == Outcome(Cached(c, SourceLanguage(o), o.to, text).value, false, c)
    ensures r.askedEndpoint ==> r.result == Endpoint(text, SourceLanguage(o), o.to, endpoint)
    ensures !UseCache(o) ==> r.cache == c
    ensures r.result == text ==> r.cache == c
    ensures r.cache != c ==>
      r.cache == Store(c, SourceLanguage(o), o.to, text, r.result) && r.askedEndpoint
  {
    var from := SourceLanguage(o);
    if from == o.to then Outcome(text, false, c)
    else if UseCache(o) && Cached(c, from, o.to, text).Some? then Outcome(Cached(c, from, o.to, text).value, false, c)
    else
      var translated := Endpoint(text, from, o.to, endpoint);
      if UseCache(o) && translated != text then Outcome(translated, true, Store(c, from, o.to, text, translated))
      else Outcome(translated, true, c)
  }

  /** A translation the endpoint gave, cached and not empty, is served from
      the cache by the next identical call, without asking again. */
  lemma RepeatIsServedFromCache(c: Cache, text: string, o: TranslateOptions,
                                endpoint: (string, string, string) -> Option<string>)
    requires UseCache(o)
    requires var first := TranslateSpec(c, text, o, endpoint);
      first.askedEndpoint && first.result != text && first.result != ""
    ensures var first := TranslateSpec(c, text, o, endpoint);
      TranslateSpec(first.cache, text, o, endpoint) == Outcome(first.result, false, first.cache)
  {
    var first := TranslateSpec(c, text, o, endpoint);
    StoreThenRead(c, SourceLanguage(o), o.to, text, first.result, SourceLanguage(o), o.to, text);
  }

  /** A failed request returns the text and stores nothing. */
  lemma FailureReturnsText(c: Cache, text: string, o: TranslateOptions,
                           endpoint: (string, string, string) -> Option<string>)
    requires endpoint(text, SourceLanguage(o), o.to).None?
    ensures TranslateSpec(c, text, o, endpoint).askedEndpoint ==> TranslateSpec(c, text, o, endpoint).result == text
    ensures TranslateSpec(c, text, o, endpoint).cache == c
  {
  }

  /** The service, with the module-level cache as its field. */
  class Translator {
    var translationCache: Cache

    constructor()
      ensures translationCache == map[]
    {
      translationCache := map[];
    }

    /** `translateText`. */
    method TranslateText(text: string, options: TranslateOptions,
                         endpoint: (string, string, string) -> Option<string>)
      returns (translated: string, askedEndpoint: bool)
      modifies this
      ensures Outcome(translated, askedEndpoint, translationCache)
        == TranslateSpec(old(translationCache), text, options, endpoint)
    {
      var from := SourceLanguage(options);
      var to := options.to;
      var useCache := UseCache(options);
      if from == to {
        return text, false;
      }
      if useCache {
        var cached := Cached(translationCache, from, to, text);
        if cached.Some? {
          return cached.value, false;
        }
      }
      translated := Endpoint(text, from, to, endpoint);
      askedEndpoint := true;
      if useCache && translated != text {
        if from !in translationCache {
          translationCache := translationCache[from := map[to := map[text := translated]]];
        } else if to !in translationCache[from] {
          translationCache := translationCache[from := translationCache[from][to := map[text := translated]]];
        } else {
          translationCache := translationCache[from := translationCache[from][to := translationCache[from][to][text := translated]]];
        }
      }
    }
  }
}
