/** `components/gallery/ImageGrid.tsx`: one square card per image, with the
    localized title, a 500×500 image, the first three tags and a link to the
    detail page. */
module ImageGrid {
  import opened Archive
  import opened Display

  datatype GridCard = GridCard(
    href: string,
    src: DisplayUrl,
    alt: string,
    title: Option<string>,
    tags: Option<seq<string>>)

  /** One grid card, field by field. */
  function Card(img: ArchiveImage, locale: string): (c: GridCard)
    ensures
      && c.href == "/" + locale + "/gallery/" + img.slug.current
      && c.title == (if locale == "ar" && Truthy(img.title.ar) then img.title.ar else img.title.en)
      && c.alt == (if Truthy(c.title) then c.title.value else "Archive image")
      && c.src == (if Truthy(img.r2Url) then Direct(img.r2Url.value) else Cms(img.image.assetRef, 500, Some(500)))
      && (c.tags.Some? <==> img.tags.Some? && |img.tags.value| > 0)
      && (c.tags.Some? ==> var n := if |img.tags.value| < 3 then |img.tags.value| else 3;
            |c.tags.value| == n && forall k :: 0 <= k < n ==> c.tags.value[k] == img.tags.value[k])
  {
    var title := TitleFor(img, locale);
    GridCard(
      Href(locale, img.slug.current),
      ImageUrl(img, 500, Some(500)),
      OrDefault(title, AltFallback),
      title,
      TagBlock(img, 3))
  }

  /** `images.map(...)`: one card per image, in the same order. */
  function Grid(images: seq<ArchiveImage>, locale: string): (cards: seq<GridCard>)
    ensures |cards| == |images|
    ensures forall k :: 0 <= k < |images| ==> cards[k] == Card(images[k], locale)
  {
    seq(|images|, k requires 0 <= k < |images| => Card(images[k], locale))
  }
}
