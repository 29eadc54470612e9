/** The selection rules that the gallery views repeat: the localized text
    (`locale === 'ar' && x.ar ? x.ar : x.en`), the image URL (`r2Url`
    first, otherwise the CMS image builder), the detail-page link and the
    tag preview. `urlFor(image).width(w).height(h).url()` is a foreign URL
    builder; its result is kept symbolic as `Cms(asset, w, h)`. */
module Display {
  import opened Text
  import opened Archive

  /** `locale === 'ar' && ar ? ar : en` */
  function Pick(locale: string, ar: Option<string>, en: Option<string>): (r: Option<string>)
    ensures r == ar || r == en
  {
    if locale == "ar" && Truthy(ar) then ar else en
  }

  /** Arabic text is shown only for the `ar` locale and only when it is non-empty;
      in every other case the English value (possibly absent) is shown. */
  lemma PickRule(locale: string, ar: Option<string>, en: Option<string>)
    ensures Pick(locale, ar, en) != en ==> locale == "ar" && Truthy(ar) && Pick(locale, ar, en) == ar
    ensures locale != "ar" || !Truthy(ar) ==> Pick(locale, ar, en) == en
    ensures locale == "ar" && Truthy(ar) ==> Pick(locale, ar, en) == ar
  {
  }

  /** The shown title: `locale === 'ar' && title.ar ? title.ar : title.en`. */
  function TitleFor(img: ArchiveImage, locale: string): (r: Option<string>)
    ensures r == img.title.ar || r == img.title.en
    ensures locale == "ar" && Truthy(img.title.ar) ==> r == img.title.ar
    ensures !(locale == "ar" && Truthy(img.title.ar)) ==> r == img.title.en
  {
    Pick(locale, img.title.ar, img.title.en)
  }

  /** The shown description, by the same rule over `description?.ar` and `description?.en`. */
  function DescriptionFor(img: ArchiveImage, locale: string): (r: Option<string>)
    ensures r == ArOf(img.description) || r == EnOf(img.description)
    ensures locale == "ar" && Truthy(ArOf(img.description)) ==> r == ArOf(img.description)
    ensures !(locale == "ar" && Truthy(ArOf(img.description))) ==> r == EnOf(img.description)
  {
    Pick(locale, ArOf(img.description), EnOf(img.description))
  }

  /** The shown insight, by the same rule over `aiInsights?.ar` and `aiInsights?.en`. */
  function InsightFor(img: ArchiveImage, locale: string): (r: Option<string>)
    ensures r == InsightOf(img.aiInsights, "ar") || r == InsightOf(img.aiInsights, "en")
    ensures locale == "ar" && Truthy(InsightOf(img.aiInsights, "ar")) ==> r == InsightOf(img.aiInsights, "ar")
    ensures !(locale == "ar" && Truthy(InsightOf(img.aiInsights, "ar"))) ==> r == InsightOf(img.aiInsights, "en")
  {
    Pick(locale, InsightOf(img.aiInsights, "ar"), InsightOf(img.aiInsights, "en"))
  }

  /** An empty Arabic title (what an upload stores) falls back to English in every locale. */
  lemma EmptyArabicTitleFallsBack(img: ArchiveImage, locale: string)
    requires img.title.ar == Some("")
    ensures TitleFor(img, locale) == img.title.en
  {
  }

  /** Where an `<Image src>` comes from. */
  datatype DisplayUrl =
    | Direct(url: string)
    | Cms(assetRef: string, width: nat, height: Option<nat>)

  /** `image.r2Url || urlFor(image.image).width(w)[.height(h)].url()` */
  function ImageUrl(img: ArchiveImage, width: nat, height: Option<nat>): (u: DisplayUrl)
    ensures u.Direct? <==> Truthy(img.r2Url)
    ensures u.Direct? ==> u.url == img.r2Url.value
    ensures u.Cms? ==> u == Cms(img.image.assetRef, width, height)
  {
    if Truthy(img.r2Url) then Direct(img.r2Url.value) else Cms(img.image.assetRef, width, height)
  }

  /** `/${locale}/gallery/${slug}` */
  function Href(locale: string, slug: string): (h: string)
    ensures StartsWith(h, "/" + locale + "/gallery/")
    ensures |slug| <= |h| && h[|h| - |slug|..] == slug
    ensures |h| == |"/" + locale + "/gallery/"| + |slug|
  {
    "/" + locale + "/gallery/" + slug
  }

  /** For one locale, distinct slugs give distinct links. */
  lemma HrefInjective(locale: string, s1: string, s2: string)
    ensures Href(locale, s1) == Href(locale, s2) <==> s1 == s2
  {
    if Href(locale, s1) == Href(locale, s2) {
      var p := |"/" + locale + "/gallery/"|;
      assert Href(locale, s1)[p..] == s1;
      assert Href(locale, s2)[p..] == s2;
    }
  }

  function Min(a: nat, b: nat): nat
  {
    if a <= b then a else b
  }

  /** `tags.slice(0, n)` */
  function Preview(tags: seq<string>, n: nat): (r: seq<string>)
    ensures |r| == Min(n, |tags|)
    ensures forall k :: 0 <= k < |r| ==> r[k] == tags[k]
  {
    tags[..Min(n, |tags|)]
  }

  /** `image.tags && image.tags.length > 0` */
  predicate HasTags(img: ArchiveImage)
  {
    img.tags.Some? && |img.tags.value| > 0
  }

  /** The tags a card shows: `None` when the tag block is not rendered. */
  function TagBlock(img: ArchiveImage, n: nat): (r: Option<seq<string>>)
    ensures r.Some? <==> HasTags(img)
    ensures r.Some? ==> r.value == Preview(img.tags.value, n)
  {
    if HasTags(img) then Some(Preview(img.tags.value, n)) else None
  }

  /** The alt text when there is no title: `title || 'Archive image'`. */
  const AltFallback := "Archive image"
}
