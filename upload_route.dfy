/** `app/api/upload/route.ts`: the title and slug a new archive image gets
    from its filename, the document the route creates, and the `POST`
    handler as a sequence of writes to the stores (R2 put, CMS asset upload,
    CMS document create) with an early `400` and a catch-all `500`. */
module UploadRoute {
  import opened Text
  import opened Archive
  import opened Backends
  import R2

  // ---------------------------------------------------------------------
  // Title: `name.replace(/\.[^/.]+$/, '')`

  /** The regex `\.[^/.]+$` matches at `j`: a `.` followed by a non-empty
      run of characters other than `.` and `/` that reaches the end. */
  predicate ExtensionAt(name: string, j: int)
  {
    && 0 <= j < |name| - 1
    && name[j] == '.'
    && forall k :: j < k < |name| ==> name[k] != '.' && name[k] != '/'
  }

  /** The regex can match in at most one place. */
  lemma ExtensionAtUnique(name: string, i: int, j: int)
    requires ExtensionAt(name, i) && ExtensionAt(name, j)
    ensures i == j
  {
  }

  /** The position of the last `.`, if any. */
  function LastDot(s: string): (r: Option<nat>)
    ensures r.Some? ==> r.value < |s| && s[r.value] == '.'
    ensures r.Some? ==> forall k :: r.value < k < |s| ==> s[k] != '.'
    ensures r.None? ==> forall k :: 0 <= k < |s| ==> s[k] != '.'
  {
    if s == [] then None
    else if s[|s| - 1] == '.' then Some(|s| - 1)
    else LastDot(s[..|s| - 1])
  }

  /** `title.en` of an uploaded file: the name without its final extension. */
  function StripExtension(name: string): (r: string)
    ensures |r| <= |name| && name[..|r|] == r
    ensures forall j :: ExtensionAt(name, j) ==> r == name[..j]
    ensures (forall j :: !ExtensionAt(name, j)) ==> r == name
  {
    match LastDot(name)
    case None => name
    case Some(j) => if ExtensionAt(name, j) then name[..j] else name
  }

  /** Stripping removes only the last extension, so it is not idempotent. */
  lemma StripExtensionNotIdempotent()
    ensures StripExtension("a.b.jpg") == "a.b"
    ensures StripExtension(StripExtension("a.b.jpg")) == "a"
  {
    assert ExtensionAt("a.b.jpg", 3);
    assert ExtensionAt("a.b", 1);
  }

  /** A trailing dot, a dot-file and a dot inside a directory part are left alone. */
  lemma StripExtensionKeeps()
    ensures StripExtension("photo.") == "photo."
    ensures StripExtension("dir.d/photo") == "dir.d/photo"
    ensures StripExtension(".env") == ""
  {
    assert ExtensionAt(".env", 0);
    assert "dir.d/photo"[5] == '/';
  }

  // ---------------------------------------------------------------------
  // Slug: `title.toLowerCase().replace(/\s+/g, '-')`

  /** The string without its leading run of whitespace. */
  function DropSpaces(s: string): (r: string)
    ensures |r| <= |s| && r == s[|s| - |r|..]
    ensures r == [] || !IsSpace(r[0])
    ensures forall k :: 0 <= k < |s| - |r| ==> IsSpace(s[k])
  {
    if s != [] && IsSpace(s[0]) then DropSpaces(s[1..]) else s
  }

  /** `replace(/\s+/g, '-')`: every maximal whitespace run becomes one `-`. */
  function Hyphenate(s: string): (r: string)
    ensures |r| <= |s|
    ensures forall k :: 0 <= k < |r| ==> !IsSpace(r[k])
    ensures forall k :: 0 <= k < |r| ==> r[k] == '-' || r[k] in s
    decreases |s|
  {
    if s == [] then []
    else if IsSpace(s[0]) then "-" + Hyphenate(DropSpaces(s))
    else [s[0]] + Hyphenate(s[1..])
  }

  predicate NoSpace(s: string)
  {
    forall k :: 0 <= k < |s| ==> !IsSpace(s[k])
  }

  /** Text without whitespace is left unchanged. */
  lemma {:induction false} HyphenateNoSpace(s: string)
    requires NoSpace(s)
    ensures Hyphenate(s) == s
  {
    if s != [] {
      assert NoSpace(s[1..]);
      HyphenateNoSpace(s[1..]);
    }
  }

  /** Dropping a whitespace run in front of text that does not start with whitespace. */
  lemma {:induction false} DropSpacesRun(run: string, t: string)
    requires forall k :: 0 <= k < |run| ==> IsSpace(run[k])
    requires t == [] || !IsSpace(t[0])
    ensures DropSpaces(run + t) == t
  {
    if run != [] {
      assert (run + t)[1..] == run[1..] + t;
      DropSpacesRun(run[1..], t);
    }
  }

  /** A maximal whitespace run after a word becomes exactly one `-`. */
  lemma {:induction false} HyphenateRun(w: string, run: string, t: string)
    requires NoSpace(w)
    requires run != [] && forall k :: 0 <= k < |run| ==> IsSpace(run[k])
    requires t == [] || !IsSpace(t[0])
    ensures Hyphenate(w + run + t) == w + "-" + Hyphenate(t)
  {
    if w == [] {
      assert w + run + t == run + t;
      DropSpacesRun(run, t);
    } else {
      assert (w + run + t)[1..] == w[1..] + run + t;
      assert NoSpace(w[1..]);
      HyphenateRun(w[1..], run, t);
    }
  }

  /** `slug.current` of an uploaded file. */
  function SlugOf(name: string): (slug: string)
    ensures NoSpace(slug)
    ensures IsLowerStr(slug)
    ensures |slug| <= |name|
  {
    var lowered := LowerStr(StripExtension(name));
    LowerStrIsLower(StripExtension(name));
    Hyphenate(lowered)
  }

  /** A name that is already a lower-case word with no extension is its own slug:
      nothing shortens it to the schema's 96-character Studio limit. */
  lemma SlugKeepsPlainName(name: string)
    requires forall k :: 0 <= k < |name| ==> name[k] != '.'
    requires NoSpace(name) && IsLowerStr(name)
    ensures SlugOf(name) == name
  {
    assert StripExtension(name) == name;
    assert LowerStr(name) == name;
    HyphenateNoSpace(name);
  }

  lemma SlugNotTruncated()
    ensures |SlugOf(seq(100, _ => 'a'))| == 100
  {
    SlugKeepsPlainName(seq(100, _ => 'a'));
  }

  /** A sample file name. */
  lemma SunsetBeachExample()
    ensures StripExtension("sunset-beach.jpg") == "sunset-beach"
    ensures SlugOf("sunset-beach.jpg") == "sunset-beach"
  {
    assert ExtensionAt("sunset-beach.jpg", 12);
    SlugKeepsPlainName("sunset-beach");
  }

  // ---------------------------------------------------------------------
  // The created document and the handler

  /** What the CMS assigns on `create`. */
  datatype Stamp = Stamp(id: string, createdAt: string, updatedAt: string)

  /** The document `client.create` stores for an uploaded file. */
  function NewDocument(name: string, r2Url: string, assetId: string, stamp: Stamp): (doc: ArchiveImage)
    ensures doc.title.en == Some(StripExtension(name)) && doc.title.ar == Some("")
    ensures doc.slug.current == SlugOf(name)
    ensures doc.r2Url == Some(r2Url) && doc.image.assetRef == assetId
    ensures doc.featured == Some(DefaultFeatured) && doc.order == Some(DefaultOrder)
  {
    ArchiveImage(
      stamp.id, stamp.createdAt, stamp.updatedAt,
      Localized(Some(StripExtension(name)), Some("")),
      Slug(SlugOf(name)),
      ImageField(assetId),
      None, None, None, None,
      Some(r2Url), Some(false), Some(0))
  }

  /** The slug of the created document is derived from its own `title.en`, and
      does not depend on any other document. */
  lemma SlugFollowsTitle(name: string, r2Url: string, assetId: string, stamp: Stamp)
    ensures var doc := NewDocument(name, r2Url, assetId, stamp);
      doc.slug.current == Hyphenate(LowerStr(doc.title.en.value))
  {
  }

  /** The multipart form: `file` and `locale` fields. */
  datatype UploadForm = UploadForm(file: Option<FileRef>, locale: Option<string>)

  datatype UploadResponse =
    | Uploaded(document: ArchiveImage, r2Url: string)
    | Rejected(status: int, error: string)

  const NoFileError := "No file provided"
  const UploadFailedError := "Failed to upload image"

  /** `POST /api/upload`.
      `form` is `None` when `request.formData()` throws; `r2Sent`, `assetId`
      and `created` are the outcomes of the R2 put, the CMS asset upload and
      the CMS create (`None` = the call threw). The locale field is read but
      plays no part. */
  method Post(s: Stores, form: Option<UploadForm>, base: string, now: nat,
              r2Sent: bool, assetId: Option<string>, created: Option<Stamp>)
      returns (resp: UploadResponse)
    modifies s`objects, s`assets, s`documents
    // a request that is not a form, or has no file: no write at all
    ensures form.None? ==> resp == Rejected(500, UploadFailedError)
    ensures form.Some? && form.value.file.None? ==> resp == Rejected(400, NoFileError)
    ensures form.None? || form.value.file.None? ==>
      s.objects == old(s.objects) && s.assets == old(s.assets) && s.documents == old(s.documents)
    // a file: R2 first, then the asset, then the document; a failure stops the chain with 500
    ensures form.Some? && form.value.file.Some? ==>
      var f := form.value.file.value;
      var key := R2.ObjectKey(now, f.name);
      var url := R2.GetR2Url(base, key);
      && (!r2Sent ==> resp == Rejected(500, UploadFailedError) && s.objects == old(s.objects))
      && (r2Sent ==> s.objects == old(s.objects)[key := StoredObject(f.bytes, f.contentType)])
      && (!r2Sent || assetId.None? ==> s.assets == old(s.assets))
      && (r2Sent && assetId.None? ==> resp == Rejected(500, UploadFailedError))
      && (r2Sent && assetId.Some? ==> s.assets == old(s.assets)[assetId.value := Asset(f.bytes, f.name)])
      && (!r2Sent || assetId.None? || created.None? ==> s.documents == old(s.documents))
      && (r2Sent && assetId.Some? && created.None? ==> resp == Rejected(500, UploadFailedError))
      && (r2Sent && assetId.Some? && created.Some? ==>
            var doc := NewDocument(f.name, url, assetId.value, created.value);
            && s.documents == old(s.documents)[created.value.id := doc]
            && resp == Uploaded(doc, url))
    // documents stay stored under their own `_id`
    ensures KeyedById(old(s.documents)) ==> KeyedById(s.documents)
    // no document is created unless both binaries were stored
    ensures s.documents != old(s.documents) ==>
      && form.Some? && form.value.file.Some?
      && R2.ObjectKey(now, form.value.file.value.name) in s.objects
      && assetId.Some? && assetId.value in s.assets
    // the response's r2Url is the created document's r2Url
    ensures resp.Uploaded? ==> resp.document.r2Url == Some(resp.r2Url)
  {
    if form.None? {
      return Rejected(500, UploadFailedError);
    }
    var file := form.value.file;
    if file.None? {
      return Rejected(400, NoFileError);
    }
    var f := file.value;
    var r2Url := R2.UploadToR2(s, base, now, f.bytes, f.name, f.contentType, r2Sent);
    if r2Url.None? {
      return Rejected(500, UploadFailedError);
    }
    if assetId.None? {
      return Rejected(500, UploadFailedError);
    }
    s.assets := s.assets[assetId.value := Asset(f.bytes, f.name)];
    if created.None? {
      return Rejected(500, UploadFailedError);
    }
    var doc := NewDocument(f.name, r2Url.value, assetId.value, created.value);
    s.documents := s.documents[created.value.id := doc];
    resp := Uploaded(doc, r2Url.value);
  }

  /** Two uploads of the same file create two documents with the same slug:
      the route does not check slugs for uniqueness. */
  method UploadTwice(s: Stores, f: FileRef, base: string, t1: nat, t2: nat, a1: string, a2: string,
                     d1: Stamp, d2: Stamp)
      returns (r1: UploadResponse, r2: UploadResponse)
    requires t1 != t2 && d1.id != d2.id
    modifies s`objects, s`assets, s`documents
    ensures r1.Uploaded? && r2.Uploaded?
    ensures d1.id in s.documents && d2.id in s.documents
    ensures s.documents[d1.id].slug == s.documents[d2.id].slug
    ensures r1.r2Url != r2.r2Url
  {
    var form := Some(UploadForm(Some(f), Some("en")));
    r1 := Post(s, form, base, t1, true, Some(a1), Some(d1));
    r2 := Post(s, form, base, t2, true, Some(a2), Some(d2));
    R2.DistinctInstantsDistinctKeys(t1, t2, f.name);
    R2.GetR2UrlInjective(base, R2.ObjectKey(t1, f.name), R2.ObjectKey(t2, f.name));
  }
}
