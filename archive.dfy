/** The `ArchiveImage` document as the gallery code reads it, with the
    schema's defaults for `featured` and `order`. Optional properties, and
    the per-locale strings that the code reads with `?.`, are `Option`s. */
module Archive {

  datatype Option<+T> = None | Some(value: T)

  /** JavaScript truthiness of an optional string: present and non-empty. */
  predicate Truthy(o: Option<string>)
  {
    o.Some? && o.value != ""
  }

  /** `o || d`: the value when it is truthy, otherwise the default. */
  function OrDefault(o: Option<string>, d: string): (r: string)
    ensures Truthy(o) ==> r == o.value
    ensures !Truthy(o) ==> r == d
  {
    if Truthy(o) then o.value else d
  }

  /** A per-locale text object `{ en?, ar? }`. */
  datatype Localized = Localized(en: Option<string>, ar: Option<string>)

  datatype Slug = Slug(current: string)

  /** The CMS image field: a reference to an uploaded asset. */
  datatype ImageField = ImageField(assetRef: string)

  datatype Metadata = Metadata(
    date: Option<string>,
    author: Option<string>,
    source: Option<string>,
    location: Option<string>,
    copyright: Option<string>)

  /** `aiInsights` is an object whose keys are locales plus `generatedAt`. */
  type Insights = map<string, string>

  const GeneratedAtKey := "generatedAt"

  datatype ArchiveImage = ArchiveImage(
    id: string,
    createdAt: string,
    updatedAt: string,
    title: Localized,
    slug: Slug,
    image: ImageField,
    description: Option<Localized>,
    tags: Option<seq<string>>,
    metadata: Option<Metadata>,
    aiInsights: Option<Insights>,
    r2Url: Option<string>,
    featured: Option<bool>,
    order: Option<int>)

  /** Schema initial values. */
  const DefaultFeatured := false
  const DefaultOrder := 0

  /** A property of an optional `Localized` object, as `x?.en` / `x?.ar` read it. */
  function EnOf(x: Option<Localized>): Option<string>
  {
    if x.Some? then x.value.en else None
  }

  function ArOf(x: Option<Localized>): Option<string>
  {
    if x.Some? then x.value.ar else None
  }

  /** `aiInsights?.[key]` */
  function InsightOf(x: Option<Insights>, key: string): Option<string>
  {
    if x.Some? && key in x.value then Some(x.value[key]) else None
  }

  type Bytes = seq<bv8>

  /** A file chosen in the browser and posted as form data. */
  datatype FileRef = FileRef(name: string, contentType: string, bytes: Bytes)
}
