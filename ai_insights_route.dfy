/** `app/api/ai-insights/route.ts`: `POST { imageId, locale }` fetches the CMS
    document, asks `generateAIInsights` for a text, and replaces the
    document's whole `aiInsights` object with `{ [locale]: text, generatedAt }`. */
module AiInsightsRoute {
  import opened Archive
  import opened Backends
  import opened AiLib

  /** The parsed JSON body; `None` is a body that is not JSON. */
  datatype InsightBody = InsightBody(imageId: Option<string>, locale: Option<string>)

  datatype InsightResponse =
    | Insights(insights: string)
    | Failed(status: int, error: string)

  const NoIdError := "No image ID provided"
  const NotFoundError := "Image not found"
  const FailedError := "Failed to generate AI insights"

  /** The outside calls in the order the handler makes them. */
  datatype Call = GetDocument(id: string) | AskModel(request: ChatRequest) | PatchDocument(id: string)

  /** The object key a computed property `[locale]` produces: an absent
      locale becomes the string `"undefined"`. */
  function LocaleKey(locale: Option<string>): (k: string)
    ensures locale.Some? ==> k == locale.value
    ensures locale.None? ==> k == "undefined"
  {
    if locale.Some? then locale.value else "undefined"
  }

  /** `{ [locale]: insights, generatedAt: now }`; a locale named `generatedAt`
      is overwritten by the timestamp that follows it. */
  function NewInsights(locale: Option<string>, text: string, now: string): (m: Insights)
    ensures m.Keys == {LocaleKey(locale), GeneratedAtKey}
    ensures m[GeneratedAtKey] == now
    ensures LocaleKey(locale) != GeneratedAtKey ==> m[LocaleKey(locale)] == text
  {
    map[LocaleKey(locale) := text][GeneratedAtKey := now]
  }

  /** The patch sets the whole object: an insight stored for another locale is
      gone afterwards, so generating Arabic insights loses the English ones. */
  lemma PatchDiscardsOtherLocales(locale: Option<string>, text: string, now: string, other: string)
    requires other != LocaleKey(locale) && other != GeneratedAtKey
    ensures InsightOf(Some(NewInsights(locale, text, now)), other) == None
  {
  }

  /** The locale is not checked: any string, even one the pages never read, becomes a key. */
  lemma AnyLocaleIsAKey(locale: string, text: string, now: string)
    requires locale != GeneratedAtKey
    ensures InsightOf(Some(NewInsights(Some(locale), text, now)), locale) == Some(text)
  {
  }

  /** `POST`. `fetched` is whether `getDocument` returned at all, `apiKey` and
      `reply` are the inputs of `generateAIInsights`, `committed` whether the
      patch was committed, and `now` the ISO timestamp. */
  method Post(s: Stores, body: Option<InsightBody>, fetched: bool, apiKey: Option<string>, reply: Reply,
              committed: bool, now: string)
      returns (resp: InsightResponse, calls: seq<Call>)
    modifies s`documents
    ensures body.None? ==> resp == Failed(500, FailedError) && calls == []
    ensures body.Some? && !Truthy(body.value.imageId) ==> resp == Failed(400, NoIdError) && calls == []
    ensures s.documents != old(s.documents) ==>
      && body.Some? && Truthy(body.value.imageId) && resp.Insights?
    ensures resp.Insights? ==>
      var id := body.value.imageId.value;
      && body.Some? && body.value.imageId.Some? && id in old(s.documents) && fetched && committed
      && var g := GenerateAIInsights(old(s.documents)[id], body.value.locale, apiKey, reply);
      && g.Generated?
      && resp.insights == g.text
      && calls == [GetDocument(id), AskModel(g.request), PatchDocument(id)]
      && s.documents == old(s.documents)[id := old(s.documents)[id].(aiInsights := Some(NewInsights(body.value.locale, g.text, now)))]
    ensures body.Some? && Truthy(body.value.imageId) ==>
      var id := body.value.imageId.value;
      && (!fetched ==> resp == Failed(500, FailedError) && calls == [GetDocument(id)])
      && (fetched && id !in old(s.documents) ==> resp == Failed(404, NotFoundError) && calls == [GetDocument(id)])
      && (fetched && id in old(s.documents) && !Truthy(apiKey) ==>
            resp == Failed(500, FailedError) && calls == [GetDocument(id)])
      && (fetched && id in old(s.documents) && Truthy(apiKey) && !committed ==>
            && resp == Failed(500, FailedError)
            && calls == [GetDocument(id), AskModel(GenerateAIInsights(old(s.documents)[id], body.value.locale, apiKey, reply).request),
                         PatchDocument(id)])
      // the document exists, the key is set and the patch is committed: success
      && (fetched && id in old(s.documents) && Truthy(apiKey) && committed ==> resp.Insights?)
    ensures !resp.Insights? ==> s.documents == old(s.documents)
    ensures KeyedById(old(s.documents)) ==> KeyedById(s.documents)
  {
    calls := [];
    if body.None? {
      resp := Failed(500, FailedError);
      return;
    }
    var imageId := body.value.imageId;
    var locale := body.value.locale;
    if !Truthy(imageId) {
      resp := Failed(400, NoIdError);
      return;
    }
    var id := imageId.value;
    calls := calls + [GetDocument(id)];
    if !fetched {
      resp := Failed(500, FailedError);
      return;
    }
    if id !in s.documents {
      resp := Failed(404, NotFoundError);
      return;
    }
    var image := s.documents[id];
    var g := GenerateAIInsights(image, locale, apiKey, reply);
    if g.KeyMissing? {
      resp := Failed(500, FailedError);
      return;
    }
    calls := calls + [AskModel(g.request)];
    calls := calls + [PatchDocument(id)];
    if !committed {
      resp := Failed(500, FailedError);
      return;
    }
    s.documents := s.documents[id := image.(aiInsights := Some(NewInsights(locale, g.text, now)))];
    resp := Insights(g.text);
  }
}
