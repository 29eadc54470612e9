/** `app/api/search/route.ts`: `GET ?q=…&locale=…` forwards the query to the
    `images` index and returns three fields of its answer. The engine's
    ranking is foreign; its answer is the parameter `result` (`None` when
    the call throws). */
module SearchRoute {
  import opened Text
  import opened Archive
  import opened Backends

  datatype SearchParams = SearchParams(q: Option<string>, locale: Option<string>)

  datatype SearchOptions = SearchOptions(limit: nat, attributesToHighlight: seq<string>, attributesToSearchOn: seq<string>)

  /** What the engine answers; the route reads only three of these fields. */
  datatype EngineResult = EngineResult(
    hits: seq<SearchDoc>,
    estimatedTotalHits: nat,
    processingTimeMs: nat,
    query: string,
    limit: nat,
    offset: nat)

  datatype SearchCall = SearchCall(query: string, options: SearchOptions)

  datatype SearchResponse =
    | Found(hits: seq<SearchDoc>, estimatedTotalHits: nat, processingTimeMs: nat)
    | Failed(status: int, error: string)

  datatype Handled = Handled(response: SearchResponse, call: Option<SearchCall>)

  const NoQueryError := "No query provided"
  const SearchFailedError := "Search failed"
  const Limit := 50

  /** `searchParams.get('locale') || 'en'` */
  const DefaultLocale := "en"

  function OptionsFor(locale: string): (o: SearchOptions)
    ensures o.limit == Limit
    ensures o.attributesToHighlight == ["title", "description", "tags"]
    ensures |o.attributesToSearchOn| == 3 && o.attributesToSearchOn[2] == "tags"
    ensures StartsWith(o.attributesToSearchOn[0], "title.") && o.attributesToSearchOn[0][|"title."|..] == locale
    ensures StartsWith(o.attributesToSearchOn[1], "description.")
         && o.attributesToSearchOn[1][|"description."|..] == locale
  {
    SearchOptions(Limit, ["title", "description", "tags"], ["title." + locale, "description." + locale, "tags"])
  }

  /** Each locale searches its own pair of fields: distinct locales never
      produce the same options. */
  lemma OptionsInjective(l1: string, l2: string)
    ensures OptionsFor(l1) == OptionsFor(l2) <==> l1 == l2
  {
    if OptionsFor(l1) == OptionsFor(l2) {
      assert OptionsFor(l1).attributesToSearchOn[0][|"title."|..] == l1;
      assert OptionsFor(l2).attributesToSearchOn[0][|"title."|..] == l2;
    }
  }

  /** `GET` */
  function Get(params: SearchParams, result: Option<EngineResult>): (h: Handled)
    ensures !Truthy(params.q) ==> h == Handled(Failed(400, NoQueryError), None)
    ensures Truthy(params.q) ==> h.call == Some(SearchCall(params.q.value, OptionsFor(OrDefault(params.locale, DefaultLocale))))
    ensures Truthy(params.q) && result.None? ==> h.response == Failed(500, SearchFailedError)
    ensures Truthy(params.q) && result.Some? ==>
      h.response == Found(result.value.hits, result.value.estimatedTotalHits, result.value.processingTimeMs)
  {
    if !Truthy(params.q) then Handled(Failed(400, NoQueryError), None)
    else
      var call := SearchCall(params.q.value, OptionsFor(OrDefault(params.locale, DefaultLocale)));
      match result
      case None => Handled(Failed(500, SearchFailedError), Some(call))
      case Some(r) => Handled(Found(r.hits, r.estimatedTotalHits, r.processingTimeMs), Some(call))
  }

  /** A missing and an empty `locale` both search the English fields. */
  lemma MissingLocaleIsEnglish(q: string, result: Option<EngineResult>)
    requires q != ""
    ensures Get(SearchParams(Some(q), None), result) == Get(SearchParams(Some(q), Some("")), result)
    ensures Get(SearchParams(Some(q), None), result) == Get(SearchParams(Some(q), Some("en")), result)
  {
  }

  /** Only hits, the estimated total and the timing reach the client. */
  lemma ResponseIgnoresOtherFields(params: SearchParams, r: EngineResult, query: string, limit: nat, offset: nat)
    ensures Get(params, Some(r)).response == Get(params, Some(r.(query := query, limit := limit, offset := offset))).response
  {
  }
}
