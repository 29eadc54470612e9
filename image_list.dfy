/** `components/gallery/ImageList.tsx`: one row per image with the localized
    title and description, a 400×300 image, every tag and the date line. */
module ImageList {
  import opened Archive
  import opened Display

  datatype ListRow = ListRow(
    href: string,
    src: DisplayUrl,
    alt: string,
    title: Option<string>,
    description: Option<string>,
    tags: Option<seq<string>>,
    date: Option<string>)

  /** `image.metadata?.date`, shown only when it is a non-empty string; its
      locale-dependent formatting is not modelled. */
  function DateLine(img: ArchiveImage): (d: Option<string>)
    ensures d.Some? <==> img.metadata.Some? && Truthy(img.metadata.value.date)
    ensures d.Some? ==> d == img.metadata.value.date
  {
    if img.metadata.Some? && Truthy(img.metadata.value.date) then img.metadata.value.date else None
  }

  /** One list row, field by field. */
  function Row(img: ArchiveImage, locale: string): (r: ListRow)
    ensures
      && r.href == "/" + locale + "/gallery/" + img.slug.current
      && r.title == (if locale == "ar" && Truthy(img.title.ar) then img.title.ar else img.title.en)
      && r.alt == (if Truthy(r.title) then r.title.value else "Archive image")
      && r.src == (if Truthy(img.r2Url) then Direct(img.r2Url.value) else Cms(img.image.assetRef, 400, Some(300)))
      && (r.tags.Some? <==> HasTags(img))
      && (r.tags.Some? ==> r.tags.value == img.tags.value)
      && (r.date.Some? <==> img.metadata.Some? && Truthy(img.metadata.value.date))
  {
    var title := TitleFor(img, locale);
    var description := DescriptionFor(img, locale);
    ListRow(
      Href(locale, img.slug.current),
      ImageUrl(img, 400, Some(300)),
      OrDefault(title, AltFallback),
      title,
      if Truthy(description) then description else None,
      if HasTags(img) then img.tags else None,
      DateLine(img))
  }

  function List(images: seq<ArchiveImage>, locale: string): (rows: seq<ListRow>)
    ensures |rows| == |images|
    ensures forall k :: 0 <= k < |images| ==> rows[k] == Row(images[k], locale)
  {
    seq(|images|, k requires 0 <= k < |images| => Row(images[k], locale))
  }


  /** The description follows the same ar-else-en rule and is omitted when empty. */
  lemma RowDescription(img: ArchiveImage, locale: string)
    ensures var r := Row(img, locale);
      var ar := ArOf(img.description);
      var en := EnOf(img.description);
      && (locale == "ar" && Truthy(ar) ==> r.description == ar)
      && (!(locale == "ar" && Truthy(ar)) ==> r.description == (if Truthy(en) then en else None))
  {
  }
}
