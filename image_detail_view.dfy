/** `components/gallery/ImageDetailView.tsx`: the detail page's localized
    title, description and AI insight, its 1200-wide image, the initial
    values of the edit form, and the `isEditing` / `isGeneratingAI` flags
    that the save, cancel and generate handlers set. */
module ImageDetailView {
  import opened Archive
  import opened Display
  import UploadRoute

  datatype Detail = Detail(
    imageUrl: DisplayUrl,
    title: Option<string>,
    description: Option<string>,
    aiInsight: Option<string>)

  /** The three texts follow one rule: Arabic for `ar` when present and
      non-empty, otherwise English. */
  function DetailOf(img: ArchiveImage, locale: string): (d: Detail)
    ensures
      var useAr := locale == "ar";
      && d.title == (if useAr && Truthy(img.title.ar) then img.title.ar else img.title.en)
      && d.description == (if useAr && Truthy(ArOf(img.description)) then ArOf(img.description) else EnOf(img.description))
      && d.aiInsight == (if useAr && Truthy(InsightOf(img.aiInsights, "ar")) then InsightOf(img.aiInsights, "ar")
                         else InsightOf(img.aiInsights, "en"))
      && d.imageUrl == (if Truthy(img.r2Url) then Direct(img.r2Url.value) else Cms(img.image.assetRef, 1200, None))
  {
    Detail(ImageUrl(img, 1200, None), TitleFor(img, locale), DescriptionFor(img, locale), InsightFor(img, locale))
  }

  /** A freshly uploaded image shows its English title, the file name without
      extension, in every locale. */
  lemma UploadedImageShowsEnglishTitle(name: string, r2Url: string, assetId: string,
                                       stamp: UploadRoute.Stamp, locale: string)
    ensures DetailOf(UploadRoute.NewDocument(name, r2Url, assetId, stamp), locale).title
         == Some(UploadRoute.StripExtension(name))
  {
    EmptyArabicTitleFallsBack(UploadRoute.NewDocument(name, r2Url, assetId, stamp), locale);
  }

  /** `tags.join(sep)` */
  function Join(tags: seq<string>, sep: string): (r: string)
    ensures tags == [] ==> r == ""
    ensures |tags| == 1 ==> r == tags[0]
  {
    if tags == [] then ""
    else if |tags| == 1 then tags[0]
    else tags[0] + sep + Join(tags[1..], sep)
  }

  function SumLengths(tags: seq<string>): nat
  {
    if tags == [] then 0 else |tags[0]| + SumLengths(tags[1..])
  }

  /** The joined text is as long as all the tags together plus one separator
      between each pair of neighbours. */
  lemma {:induction false} JoinLength(tags: seq<string>, sep: string)
    requires tags != []
    ensures |Join(tags, sep)| == SumLengths(tags) + (|tags| - 1) * |sep|
  {
    if |tags| > 1 {
      JoinLength(tags[1..], sep);
    }
  }

  /** Joining two non-empty lists is joining each and putting one separator
      between them: the joined text is the tags in order, one separator
      between neighbours. */
  lemma {:induction false} JoinAppend(a: seq<string>, b: seq<string>, sep: string)
    requires a != [] && b != []
    ensures Join(a + b, sep) == Join(a, sep) + sep + Join(b, sep)
    decreases |a|
  {
    if |a| == 1 {
      assert (a + b)[1..] == b;
    } else {
      assert (a + b)[1..] == a[1..] + b;
      JoinAppend(a[1..], b, sep);
    }
  }

  /** Splitting the tags anywhere splits the joined text at one separator. */
  lemma JoinSplitsAt(tags: seq<string>, sep: string, k: nat)
    requires 0 < k < |tags|
    ensures Join(tags, sep) == Join(tags[..k], sep) + sep + Join(tags[k..], sep)
  {
    assert tags == tags[..k] + tags[k..];
    JoinAppend(tags[..k], tags[k..], sep);
  }

  lemma {:induction false} JoinStartsWithFirst(tags: seq<string>, sep: string)
    requires tags != []
    ensures |tags[0]| <= |Join(tags, sep)| && Join(tags, sep)[..|tags[0]|] == tags[0]
  {
  }

  datatype EditData = EditData(
    title: string,
    description: string,
    tags: string,
    author: string,
    source: string,
    location: string)

  /** The initial `editData`: the shown title and description, the tags joined
      by ", ", and the author, source and location, each `''` when absent. */
  function InitialEditData(img: ArchiveImage, locale: string): (e: EditData)
    ensures e.title == OrDefault(TitleFor(img, locale), "")
    ensures e.description == OrDefault(DescriptionFor(img, locale), "")
    ensures img.tags.None? ==> e.tags == ""
    ensures img.tags.Some? ==> e.tags == Join(img.tags.value, ", ")
    ensures img.metadata.None? ==> e.author == "" && e.source == "" && e.location == ""
    ensures img.metadata.Some? ==> e.author == OrDefault(img.metadata.value.author, "")
    ensures img.metadata.Some? ==> e.source == OrDefault(img.metadata.value.source, "")
    ensures img.metadata.Some? ==> e.location == OrDefault(img.metadata.value.location, "")
  {
    EditData(
      OrDefault(TitleFor(img, locale), ""),
      OrDefault(DescriptionFor(img, locale), ""),
      if img.tags.Some? then Join(img.tags.value, ", ") else "",
      if img.metadata.Some? then OrDefault(img.metadata.value.author, "") else "",
      if img.metadata.Some? then OrDefault(img.metadata.value.source, "") else "",
      if img.metadata.Some? then OrDefault(img.metadata.value.location, "") else "")
  }

  /** The generate button is offered only when there is no insight to show. */
  predicate GenerateButtonShown(img: ArchiveImage, locale: string)
  {
    !Truthy(InsightFor(img, locale))
  }

  /** For `ar` without an Arabic insight the page falls back to the English
      one, so the button appears only when that is missing too. */
  lemma GenerateButtonForArabic(img: ArchiveImage)
    requires !Truthy(InsightOf(img.aiInsights, "ar"))
    ensures GenerateButtonShown(img, "ar") <==> !Truthy(InsightOf(img.aiInsights, "en"))
  {
  }

  /** The JSON body `{ imageId: image._id, locale }` of the generate request. */
  datatype InsightRequest = InsightRequest(imageId: string, locale: string)

  datatype EditField = TitleField | DescriptionField | TagsField | AuthorField | SourceField | LocationField

  /** The form value an input shows. */
  function FieldOf(e: EditData, field: EditField): string
  {
    match field
    case TitleField => e.title
    case DescriptionField => e.description
    case TagsField => e.tags
    case AuthorField => e.author
    case SourceField => e.source
    case LocationField => e.location
  }

  /** `setEditData({ ...editData, title: e.target.value })` and the five like
      it: the input's own field takes the value and every other field keeps
      its value. */
  function WithField(e: EditData, field: EditField, value: string): (r: EditData)
    ensures FieldOf(r, field) == value
    ensures forall f :: f != field ==> FieldOf(r, f) == FieldOf(e, f)
  {
    match field
    case TitleField => e.(title := value)
    case DescriptionField => e.(description := value)
    case TagsField => e.(tags := value)
    case AuthorField => e.(author := value)
    case SourceField => e.(source := value)
    case LocationField => e.(location := value)
  }

  /** The page's state for one image. */
  class DetailPage {
    const image: ArchiveImage
    const locale: string
    var isEditing: bool
    var isGeneratingAI: bool
    var editData: EditData

    constructor (image: ArchiveImage, locale: string)
      ensures this.image == image && this.locale == locale
      ensures !isEditing && !isGeneratingAI
      ensures editData == InitialEditData(image, locale)
    {
      this.image := image;
      this.locale := locale;
      isEditing := false;
      isGeneratingAI := false;
      editData := InitialEditData(image, locale);
    }

    /** The edit button. */
    method StartEditing()
      modifies this`isEditing
      ensures isEditing
    {
      isEditing := true;
    }

    /** An `onChange` of one form input. */
    method Edit(field: EditField, value: string)
      modifies this`editData
      ensures editData == WithField(old(editData), field, value)
    {
      editData := WithField(editData, field, value);
    }

    /** `handleSave`: no request is made; the form is only closed. */
    method HandleSave()
      modifies this`isEditing
      ensures !isEditing
    {
      isEditing := false;
    }

    /** The cancel button: closes the form and keeps what was typed. */
    method Cancel()
      modifies this`isEditing
      ensures !isEditing
    {
      isEditing := false;
    }

    /** `handleGenerateAI`: sets the flag, posts `{imageId, locale}`, and clears
        the flag whatever the outcome; an ok response reloads the page.
        `flagWhileSending` is the flag's value when the request goes out. */
    method HandleGenerateAI(responseOk: bool)
        returns (request: InsightRequest, flagWhileSending: bool, reload: bool)
      modifies this`isGeneratingAI
      ensures request == InsightRequest(image.id, locale)
      ensures flagWhileSending && !isGeneratingAI
      ensures reload == responseOk
    {
      isGeneratingAI := true;
      request := InsightRequest(image.id, locale);
      flagWhileSending := isGeneratingAI;
      reload := responseOk;
      isGeneratingAI := false;
    }
  }
}
