/** The external services as abstract state: the object store (R2),
    the CMS (its asset subsystem and its documents) and the search index.
    Only their contents are modelled; every network outcome is a parameter
    of the operation that would have waited for it. */
module Backends {
  import opened Archive

  /** An object in the R2 bucket. */
  datatype StoredObject = StoredObject(body: Bytes, contentType: string)

  /** An asset in the CMS's own image store. */
  datatype Asset = Asset(body: Bytes, filename: string)

  /** A document of the `images` search index: the fields the resync script
      selects from the CMS, keyed by `_id`. */
  datatype SearchDoc = SearchDoc(
    id: string,
    createdAt: string,
    updatedAt: string,
    title: Localized,
    slug: Slug,
    description: Option<Localized>,
    tags: Option<seq<string>>,
    metadata: Option<Metadata>,
    featured: Option<bool>,
    order: Option<int>)

  /** Every CMS document is stored under its own `_id`. */
  predicate KeyedById(documents: map<string, ArchiveImage>)
  {
    forall id :: id in documents ==> documents[id].id == id
  }

  /** Every indexed document is stored under its own `_id`. */
  predicate IndexKeyedById(index: map<string, SearchDoc>)
  {
    forall id :: id in index ==> index[id].id == id
  }

  class Stores {
    var objects: map<string, StoredObject>
    var assets: map<string, Asset>
    var documents: map<string, ArchiveImage>
    var index: map<string, SearchDoc>
  }
}
