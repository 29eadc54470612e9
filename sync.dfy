/** `scripts/sync-to-meilisearch.js`: reads every `archiveImage` document from
    the CMS, projected to the indexed fields, and adds them to the `images`
    index under `_id`. Adding replaces documents with the same `_id` and
    leaves every other document in place: the script never deletes. */
module SyncScript {
  import opened Archive
  import opened Backends

  /** The GROQ projection `{ _id, _createdAt, _updatedAt, title, slug,
      description, tags, metadata, featured, order }`. */
  function Project(img: ArchiveImage): SearchDoc
  {
    SearchDoc(img.id, img.createdAt, img.updatedAt, img.title, img.slug, img.description,
              img.tags, img.metadata, img.featured, img.order)
  }

  /** The image reference, `r2Url` and `aiInsights` never reach the index. */
  lemma ProjectDropsFields(img: ArchiveImage, image: ImageField, r2Url: Option<string>, ins: Option<Insights>)
    ensures Project(img.(image := image, r2Url := r2Url, aiInsights := ins)) == Project(img)
    ensures Project(img).id == img.id && Project(img).title == img.title && Project(img).tags == img.tags
  {
  }

  /** Two images with the same projection differ at most in the image
      reference, `r2Url` and `aiInsights`. */
  lemma ProjectKeepsIndexedFields(a: ArchiveImage, b: ArchiveImage)
    requires Project(a) == Project(b)
    ensures a.id == b.id && a.title == b.title && a.slug == b.slug && a.description == b.description
    ensures a.tags == b.tags && a.metadata == b.metadata && a.featured == b.featured && a.order == b.order
    ensures a.(image := b.image, r2Url := b.r2Url, aiInsights := b.aiInsights) == b
  {
  }

  /** The batch, keyed by `_id`. */
  function Batch(documents: map<string, ArchiveImage>): (b: map<string, SearchDoc>)
    ensures b.Keys == documents.Keys
    ensures forall id :: id in b ==> b[id] == Project(documents[id])
  {
    map id | id in documents :: Project(documents[id])
  }

  /** `addDocuments(batch, { primaryKey: '_id' })`: replace or insert by key. */
  function AddDocuments(index: map<string, SearchDoc>, batch: map<string, SearchDoc>): (r: map<string, SearchDoc>)
    ensures r.Keys == index.Keys + batch.Keys
    ensures forall id :: id in batch ==> r[id] == batch[id]
    ensures forall id :: id in index && id !in batch ==> r[id] == index[id]
  {
    index + batch
  }

  /** Running the sync twice against unchanged documents leaves the index as one run did. */
  lemma AddTwiceIsAddOnce(index: map<string, SearchDoc>, documents: map<string, ArchiveImage>)
    ensures AddDocuments(AddDocuments(index, Batch(documents)), Batch(documents)) == AddDocuments(index, Batch(documents))
  {
    var b := Batch(documents);
    var once := AddDocuments(index, b);
    var twice := AddDocuments(once, b);
    assert twice.Keys == once.Keys;
    forall id | id in once
      ensures twice[id] == once[id]
    {
    }
  }

  /** A document deleted from the CMS stays in the index, unchanged, after a resync. */
  lemma OrphanSurvives(index: map<string, SearchDoc>, documents: map<string, ArchiveImage>, id: string)
    requires id in index && id !in documents
    ensures id in AddDocuments(index, Batch(documents))
    ensures AddDocuments(index, Batch(documents))[id] == index[id]
  {
  }

  /** After a sync, every CMS document is searchable with its current fields. */
  lemma SyncedDocumentIsCurrent(index: map<string, SearchDoc>, documents: map<string, ArchiveImage>, id: string)
    requires id in documents
    ensures AddDocuments(index, Batch(documents))[id] == Project(documents[id])
  {
  }

  /** Adding a batch built from documents keyed by `_id` keeps the index keyed by `_id`. */
  lemma AddKeepsKeyedById(index: map<string, SearchDoc>, documents: map<string, ArchiveImage>)
    ensures KeyedById(documents) && IndexKeyedById(index) ==> IndexKeyedById(AddDocuments(index, Batch(documents)))
  {
    if KeyedById(documents) && IndexKeyedById(index) {
      var r := AddDocuments(index, Batch(documents));
      forall id | id in r
        ensures r[id].id == id
      {
        if id in documents {
          assert r[id] == Project(documents[id]);
        }
      }
    }
  }

  datatype SyncCall = FetchImages | AddBatch(size: nat) | WaitForTask | GetStats

  /** `syncToMeilisearch()`. `fetched`, `enqueued`, `waited` and `statsRead` say
      whether the CMS fetch, `addDocuments`, `waitForTask` and `getStats`
      returned; the script exits with 1 at the first that throws. An
      enqueued batch is taken to be applied. */
  method Sync(s: Stores, fetched: bool, enqueued: bool, waited: bool, statsRead: bool)
      returns (exitCode: int, calls: seq<SyncCall>)
    modifies s`index
    ensures !fetched ==> exitCode == 1 && calls == [FetchImages] && s.index == old(s.index)
    ensures fetched && s.documents == map[] ==> exitCode == 0 && calls == [FetchImages] && s.index == old(s.index)
    ensures fetched && s.documents != map[] && !enqueued ==>
      exitCode == 1 && calls == [FetchImages, AddBatch(|s.documents|)] && s.index == old(s.index)
    ensures fetched && s.documents != map[] && enqueued ==>
      && s.index == AddDocuments(old(s.index), Batch(s.documents))
      && calls == [FetchImages, AddBatch(|s.documents|), WaitForTask] + (if waited then [GetStats] else [])
      && (exitCode == 0 <==> waited && statsRead)
    ensures exitCode == 0 || exitCode == 1
    ensures KeyedById(s.documents) && IndexKeyedById(old(s.index)) ==> IndexKeyedById(s.index)
    ensures old(s.index).Keys <= s.index.Keys
  {
    calls := [FetchImages];
    if !fetched {
      exitCode := 1;
    } else if s.documents == map[] {
      // `images.length === 0`
      exitCode := 0;
    } else {
      calls := calls + [AddBatch(|s.documents|)];
      if !enqueued {
        exitCode := 1;
      } else {
        AddKeepsKeyedById(s.index, s.documents);
        s.index := AddDocuments(s.index, Batch(s.documents));
        calls := calls + [WaitForTask];
        if !waited {
          exitCode := 1;
        } else {
          calls := calls + [GetStats];
          exitCode := if statsRead then 0 else 1;
        }
      }
    }
  }
}
