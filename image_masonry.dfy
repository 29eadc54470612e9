/** `components/gallery/ImageMasonry.tsx`: cards of natural height with the
    localized title, an 800-wide image and the first two tags. */
module ImageMasonry {
  import opened Archive
  import opened Display

  datatype MasonryCard = MasonryCard(
    href: string,
    src: DisplayUrl,
    alt: string,
    title: Option<string>,
    tags: Option<seq<string>>)

  /** One masonry card, field by field. */
  function Card(img: ArchiveImage, locale: string): (c: MasonryCard)
    ensures
      && c.href == "/" + locale + "/gallery/" + img.slug.current
      && c.title == (if locale == "ar" && Truthy(img.title.ar) then img.title.ar else img.title.en)
      && c.alt == (if Truthy(c.title) then c.title.value else "Archive image")
      && c.src == (if Truthy(img.r2Url) then Direct(img.r2Url.value) else Cms(img.image.assetRef, 800, None))
      && (c.tags.Some? <==> img.tags.Some? && |img.tags.value| > 0)
      && (c.tags.Some? ==> var n := if |img.tags.value| < 2 then |img.tags.value| else 2;
            |c.tags.value| == n && forall k :: 0 <= k < n ==> c.tags.value[k] == img.tags.value[k])
  {
    var title := TitleFor(img, locale);
    MasonryCard(
      Href(locale, img.slug.current),
      ImageUrl(img, 800, None),
      OrDefault(title, AltFallback),
      title,
      TagBlock(img, 2))
  }

  function Masonry(images: seq<ArchiveImage>, locale: string): (cards: seq<MasonryCard>)
    ensures |cards| == |images|
    ensures forall k :: 0 <= k < |images| ==> cards[k] == Card(images[k], locale)
  {
    seq(|images|, k requires 0 <= k < |images| => Card(images[k], locale))
  }
}
