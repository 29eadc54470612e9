/** `components/gallery/GalleryView.tsx`: the client-side text filter over the
    loaded images and the choice of empty-state message. */
module GalleryView {
  import opened Text
  import opened Archive

  /** `field?.toLowerCase().includes(query)` for an optional field. */
  predicate FieldHas(field: Option<string>, query: string)
  {
    field.Some? && Contains(LowerStr(field.value), query)
  }

  /** `tags?.some(tag => tag.toLowerCase().includes(query))` */
  predicate SomeTagHas(tags: Option<seq<string>>, query: string)
  {
    tags.Some? && exists k :: 0 <= k < |tags.value| && Contains(LowerStr(tags.value[k]), query)
  }

  /** The filter callback: an empty query keeps everything; otherwise the
      lower-cased query must occur in the lower-cased English or Arabic title,
      English or Arabic description, or one of the tags. */
  predicate Matches(img: ArchiveImage, searchQuery: string)
  {
    searchQuery == "" ||
      var q := LowerStr(searchQuery);
      || FieldHas(img.title.en, q) || FieldHas(img.title.ar, q)
      || FieldHas(EnOf(img.description), q) || FieldHas(ArOf(img.description), q)
      || SomeTagHas(img.tags, q)
  }

  /** `images.filter(matches)` */
  function Filter(images: seq<ArchiveImage>, searchQuery: string): (r: seq<ArchiveImage>)
    ensures |r| <= |images|
    ensures forall k :: 0 <= k < |r| ==> Matches(r[k], searchQuery)
  {
    if images == [] then []
    else (if Matches(images[0], searchQuery) then [images[0]] else []) + Filter(images[1..], searchQuery)
  }

  /** `a` is `b` with some elements removed, the rest in their order. */
  predicate IsSubsequence<T(==)>(a: seq<T>, b: seq<T>)
    decreases |b|
  {
    if a == [] then true
    else if b == [] then false
    else (a[0] == b[0] && IsSubsequence(a[1..], b[1..])) || IsSubsequence(a, b[1..])
  }

  lemma {:induction false} FilterIsSubsequence(images: seq<ArchiveImage>, q: string)
    ensures IsSubsequence(Filter(images, q), images)
  {
    if images != [] {
      FilterIsSubsequence(images[1..], q);
      var rest := Filter(images[1..], q);
      if Matches(images[0], q) {
        assert Filter(images, q) == [images[0]] + rest;
        assert ([images[0]] + rest)[1..] == rest;
      } else {
        assert Filter(images, q) == rest;
      }
    }
  }

  /** An image is kept exactly when it matches. */
  lemma {:induction false} FilterKeepsExactlyMatches(images: seq<ArchiveImage>, q: string, img: ArchiveImage)
    ensures img in Filter(images, q) <==> img in images && Matches(img, q)
  {
    if images != [] {
      FilterKeepsExactlyMatches(images[1..], q, img);
      assert images == [images[0]] + images[1..];
    }
  }

  /** Repeated images are kept or dropped together: a matching image appears
      in the result as often as in the input, a non-matching one never. */
  lemma {:induction false} FilterKeepsCopies(images: seq<ArchiveImage>, q: string, img: ArchiveImage)
    ensures multiset(Filter(images, q))[img] == if Matches(img, q) then multiset(images)[img] else 0
  {
    if images != [] {
      FilterKeepsCopies(images[1..], q, img);
      assert images == [images[0]] + images[1..];
      var head := if Matches(images[0], q) then [images[0]] else [];
      assert Filter(images, q) == head + Filter(images[1..], q);
      assert multiset(Filter(images, q)) == multiset(head) + multiset(Filter(images[1..], q));
      assert multiset(images) == multiset([images[0]]) + multiset(images[1..]);
    }
  }

  /** An empty query keeps every image, in order. */
  lemma {:induction false} EmptyQueryKeepsAll(images: seq<ArchiveImage>)
    ensures Filter(images, "") == images
  {
    if images != [] {
      EmptyQueryKeepsAll(images[1..]);
      assert images == [images[0]] + images[1..];
    }
  }

  /** Queries that differ only in letter case select the same images. */
  lemma {:induction false} FilterIgnoresQueryCase(images: seq<ArchiveImage>, q1: string, q2: string)
    requires LowerStr(q1) == LowerStr(q2)
    ensures Filter(images, q1) == Filter(images, q2)
  {
    LowerStrEmpty(q1);
    LowerStrEmpty(q2);
    if images != [] {
      assert Matches(images[0], q1) == Matches(images[0], q2);
      FilterIgnoresQueryCase(images[1..], q1, q2);
    }
  }

  /** The filter looks at the titles, descriptions and tags only: metadata,
      insights, URLs and ordering fields never influence it. */
  lemma MatchIgnoresOtherFields(img: ArchiveImage, q: string, m: Option<Metadata>, ins: Option<Insights>,
                                url: Option<string>, featured: Option<bool>, order: Option<int>)
    ensures Matches(img.(metadata := m, aiInsights := ins, r2Url := url, featured := featured, order := order), q)
        == Matches(img, q)
  {
  }

  /** An image whose searchable fields are all absent matches no non-empty query. */
  lemma AbsentFieldsNeverMatch(img: ArchiveImage, q: string)
    requires img.title.en.None? && img.title.ar.None?
    requires img.description.None? && img.tags.None?
    requires q != ""
    ensures !Matches(img, q)
  {
  }

  /** Empty strings in the searchable fields do not match a non-empty query either. */
  lemma EmptyFieldsNeverMatch(field: Option<string>, q: string)
    requires !Truthy(field) && q != ""
    ensures !FieldHas(field, LowerStr(q))
  {
    LowerStrEmpty(q);
    if field.Some? {
      assert LowerStr(field.value) == [];
    }
  }

  /** A tag, matched case-insensitively, is found. */
  lemma TagIsFound(img: ArchiveImage, k: nat, q: string)
    requires img.tags.Some? && k < |img.tags.value|
    requires LowerStr(img.tags.value[k]) == LowerStr(q)
    ensures Matches(img, q)
  {
    LowerStrIsLower(q);
    assert StartsWith(LowerStr(img.tags.value[k]), LowerStr(q));
  }

  datatype EmptyState = NoResults | NoImages

  /** The message shown when nothing is left: `noResults` when a query is typed,
      `noImages` (plus the upload hint) otherwise; `None` when images are listed. */
  function EmptyMessage(images: seq<ArchiveImage>, searchQuery: string): (m: Option<EmptyState>)
    ensures m.Some? <==> Filter(images, searchQuery) == []
    ensures m == Some(NoResults) <==> Filter(images, searchQuery) == [] && searchQuery != ""
  {
    if Filter(images, searchQuery) != [] then None
    else if searchQuery != "" then Some(NoResults)
    else Some(NoImages)
  }

  /** The header's total counts all loaded images, not the filtered ones. */
  function HeaderTotal(images: seq<ArchiveImage>, searchQuery: string): (n: nat)
    ensures n == |images| && n >= |Filter(images, searchQuery)|
  {
    |images|
  }

  /** With no query, the empty state can only be `noImages`, and only for an empty archive. */
  lemma NoImagesOnlyWhenEmpty(images: seq<ArchiveImage>)
    ensures EmptyMessage(images, "") == Some(NoImages) <==> images == []
  {
    EmptyQueryKeepsAll(images);
  }
}
