# emblem-eight: a verified model of the archive's upload, gallery, insight, search and resync logic

emblem-eight is a bilingual (English/Arabic) image archive. Images are uploaded
to an object store (Cloudflare R2) and to a CMS (Sanity), which holds one
`archiveImage` document per image. A search engine (Meilisearch) holds a
projection of those documents. Gallery pages list, filter and show the
documents, and an OpenAI vision model writes per-locale "AI insights".

This project models, in Dafny, the sequential logic inside that code:

- the upload route's title, slug, object key and URL derivation;
- the upload route's step order (R2 put, then CMS asset, then CMS document);
- the upload page's list of files and its upload loop;
- the gallery's text filter and empty-state choice;
- the localized field selection, image URL, link and tag preview of the three gallery layouts and the detail page;
- the detail page's edit form and its flags;
- the AI-insight route and `generateAIInsights`;
- the search route's parameter handling;
- the full resync script.

Every external service is abstract state or an outcome parameter. The class
`Backends.Stores` holds four maps:

- `objects`: R2, by key;
- `assets`: the CMS asset store, by asset id;
- `documents`: the CMS documents, by `_id`;
- `index`: the search index, by `_id`.

Each network call's outcome is a parameter of the operation that waits for it.
The clock is a parameter too: `now` in milliseconds, or the ISO timestamp.

Modules follow the source files:

| module | file |
|---|---|
| `Text` | characters, lower-casing, substring search, decimal rendering |
| `Archive` | the `ArchiveImage` document and optional values |
| `Backends` | the abstract stores |
| `R2` | `lib/r2.ts` |
| `UploadRoute` | `app/api/upload/route.ts` |
| `UploadView` | `components/upload/UploadView.tsx` |
| `GalleryView` | `components/gallery/GalleryView.tsx` |
| `Display` | the selection rules the gallery components share |
| `ImageGrid`, `ImageList`, `ImageMasonry` | the three gallery layouts |
| `ImageDetailView` | `components/gallery/ImageDetailView.tsx` |
| `AiLib` | `lib/ai.ts` |
| `AiInsightsRoute` | `app/api/ai-insights/route.ts` |
| `SearchRoute` | `app/api/search/route.ts` |
| `SyncScript` | `scripts/sync-to-meilisearch.js` |

Conventions:

- An optional string is an `Option<string>`.
- JavaScript truthiness of a string, as in `x.ar ? … : …` and `x || ''`, is `Truthy`: present and non-empty.
- `toLowerCase` is `Text.Lower`. It maps `A`–`Z` to `a`–`z` and leaves every other character unchanged.
- The regex class `\s` is `Text.IsSpace`. It covers the JavaScript WhiteSpace and LineTerminator code points: tab, LF, VT, FF, CR, space, U+00A0, U+1680, U+2000–U+200A, U+2028, U+2029, U+202F, U+205F, U+3000 and U+FEFF.
- The CMS image-URL builder `urlFor(…).width(w).height(h).url()` is kept symbolic, as `Display.Cms(assetRef, w, h)`.

Facts about the program that the model makes explicit:

- After a resync, documents deleted from the CMS stay in the index, unchanged. The script only adds and replaces documents (`SyncScript.OrphanSurvives`).
- The upload route never writes to the search index. A new document is searchable only after the next resync.
- Nothing keeps slugs unique. The route creates documents with whatever slug it derives, and two uploads of one file get the same slug (`UploadRoute.UploadTwice`).
- The resync makes one fetch of every document and adds them in one batch.

## Model

| member | source | states |
|---|---|---|
| Text.LowerStrIsLower | components/gallery/GalleryView.tsx:27 | lower-casing keeps the length, leaves no upper-case letter, and applying it twice is the same as once |
| Text.Lower | components/gallery/GalleryView.tsx:27 | `A`–`Z` become the letter at the same position in `a`–`z`, every other character is kept, no upper-case letter is left, and whitespace is kept as whitespace |
| Text.ContainsAt | components/gallery/GalleryView.tsx:28-32 | `includes` holds iff the query occurs at some position of the text |
| Text.Decimal | lib/r2.ts:18 | the decimal rendering of a timestamp is non-empty, all digits, and starts with `0` only for zero |
| Text.ParseDecimalRoundTrip | lib/r2.ts:18 | reading the rendered digits back gives the timestamp |
| Text.DecimalInjective | lib/r2.ts:18 | two timestamps render alike iff they are equal |
| R2.ObjectKey | lib/r2.ts:18 | the key starts with `images/`, then the decimal timestamp, then `-`, and ends with the file name verbatim, extension included; its length is exactly the sum of those four parts, so nothing lies between them |
| R2.GetR2Url | lib/r2.ts:33-35 | the URL is the public base, `/`, then exactly the key |
| R2.ObjectKeyInjective | lib/r2.ts:18 | two keys are equal iff timestamp and file name are both equal, because the timestamp has no `-` |
| R2.DistinctInstantsDistinctKeys | lib/r2.ts:18 | the same file name at different instants gives different keys |
| R2.GetR2UrlInjective | lib/r2.ts:30 | for one base, URLs are equal iff keys are equal, so `getR2Url(k)` is the URL `uploadToR2` returned for `k` |
| R2.UploadToR2 | lib/r2.ts:13-31 | a sent put stores body and content type at the key and returns base/key; a failed send stores nothing and returns no URL |
| UploadRoute.ExtensionAtUnique | app/api/upload/route.ts:34 | a name has at most one position where `/\.[^/.]+$/` can match |
| UploadRoute.StripExtension | app/api/upload/route.ts:34 | the title is a prefix of the name; when the name ends in `.ext`, with `ext` non-empty and free of `.` and `/`, the title is the name cut before that dot; otherwise it is the whole name |
| UploadRoute.StripExtensionNotIdempotent | app/api/upload/route.ts:34 | only the last extension goes: `a.b.jpg` gives `a.b`, and stripping again gives `a` |
| UploadRoute.StripExtensionKeeps | app/api/upload/route.ts:34 | a trailing dot and a dot before a `/` are kept, and `.env` becomes empty |
| UploadRoute.Hyphenate | app/api/upload/route.ts:39 | replacing whitespace runs never lengthens the text, leaves no whitespace, and adds no character except `-` |
| UploadRoute.HyphenateNoSpace | app/api/upload/route.ts:39 | a text without whitespace is left as it is |
| UploadRoute.HyphenateRun | app/api/upload/route.ts:39 | a maximal whitespace run between two words becomes exactly one `-` |
| UploadRoute.SlugOf | app/api/upload/route.ts:39 | the slug has no whitespace, no upper-case letter, and is never longer than the file name |
| UploadRoute.SlugKeepsPlainName | app/api/upload/route.ts:39 | a lower-case name without dot or whitespace is its own slug |
| UploadRoute.SlugNotTruncated | app/api/upload/route.ts:39 | a 100-character name gives a 100-character slug: nothing enforces the schema's 96-character limit |
| UploadRoute.SunsetBeachExample | app/api/upload/route.ts:34-39 | `sunset-beach.jpg` gives title `sunset-beach` and slug `sunset-beach` |
| UploadRoute.NewDocument | app/api/upload/route.ts:31-51 | the created document has the stripped title in English, `''` in Arabic, the derived slug, the R2 URL, the asset reference, `featured` false and `order` 0 |
| UploadRoute.SlugFollowsTitle | app/api/upload/route.ts:34-39 | the slug is the hyphenated lower case of the document's own English title |
| UploadRoute.Post | app/api/upload/route.ts:5-65 | an unreadable form gives 500 and a missing file 400, both with no write; otherwise R2, then the asset, then the document, and the first failure returns 500 with the later stores untouched; a document exists only when both binaries were stored; the response's `r2Url` is the document's; documents stay stored under their own `_id` |
| UploadRoute.UploadTwice | app/api/upload/route.ts:37-40 | two uploads of one file at different instants both succeed, with equal slugs and different R2 URLs |
| UploadView.Dropped | components/upload/UploadView.tsx:32-37 | one entry per accepted file, in order, each `pending` at 0% |
| UploadView.ProgressStepsShape | components/upload/UploadView.tsx:88 | the progress bar shows 0, 10, …, 100: eleven values ten apart |
| UploadView.Resolved | components/upload/UploadView.tsx:97-110 | an ok answer gives `success` at 100%; any failure gives `error` and keeps the progress |
| UploadView.UploadedAll | components/upload/UploadView.tsx:64-112 | after the loop, entry k is entry k resolved by answer k |
| UploadView.AllOkDisablesButton | components/upload/UploadView.tsx:177 | after a run where every answer was ok, the upload button is disabled |
| UploadView.FailureReenablesButton | components/upload/UploadView.tsx:177 | after a run with one failure the button is enabled again, and the entries that succeeded stay `success` and so are sent again next time |
| UploadView.UploadQueue.constructor | components/upload/UploadView.tsx:25-26 | no files, not uploading |
| UploadView.UploadQueue.OnDrop | components/upload/UploadView.tsx:31-39 | the new entries are appended; the old ones are unchanged and keep their order |
| UploadView.UploadQueue.RemoveFile | components/upload/UploadView.tsx:49-56 | removes exactly entry i: earlier entries keep their index and later ones move down by one; an index outside the list throws (reading `.preview` of `undefined`) and no new list is committed |
| UploadView.UploadQueue.SimulateProgress | components/upload/UploadView.tsx:88-95 | the loop writes 0, 10, …, 100 into entry i and leaves it at 100; no other entry changes |
| UploadView.UploadQueue.UploadFiles | components/upload/UploadView.tsx:58-127 | an empty list changes nothing; otherwise every entry, whatever its status, is sent in index order: the k-th request sends entry k while `isUploading` holds, when entries before k are already resolved, entry k is `uploading` and the later entries are untouched; afterwards every entry is resolved by its answer and `isUploading` is false; the toast counts every file, including failed ones |
| GalleryView.Filter | components/gallery/GalleryView.tsx:24-35 | the result is no longer than the input, and every image in it matches |
| GalleryView.FilterIsSubsequence | components/gallery/GalleryView.tsx:24 | the result is the input with some images removed and the others in their order |
| GalleryView.FilterKeepsExactlyMatches | components/gallery/GalleryView.tsx:24-35 | an image is in the result iff it is in the input and its English or Arabic title, English or Arabic description, or some tag contains the lower-cased query |
| GalleryView.FilterKeepsCopies | components/gallery/GalleryView.tsx:24-35 | each matching image keeps all its copies and each other image loses all of them |
| GalleryView.EmptyQueryKeepsAll | components/gallery/GalleryView.tsx:25 | an empty query keeps every image, in order |
| GalleryView.FilterIgnoresQueryCase | components/gallery/GalleryView.tsx:27 | queries that differ only in letter case select the same images |
| GalleryView.MatchIgnoresOtherFields | components/gallery/GalleryView.tsx:28-32 | metadata, insights, URL, `featured` and `order` never affect matching, and both languages are always searched |
| GalleryView.AbsentFieldsNeverMatch | components/gallery/GalleryView.tsx:28-32 | an image with no title, description or tags matches no non-empty query |
| GalleryView.EmptyFieldsNeverMatch | components/gallery/GalleryView.tsx:28-32 | an absent or empty field never contains a non-empty query |
| GalleryView.TagIsFound | components/gallery/GalleryView.tsx:32 | a tag equal to the query up to letter case makes the image match |
| GalleryView.EmptyMessage | components/gallery/GalleryView.tsx:49-56 | a message appears iff nothing is left, and it is `noResults` iff a query is typed |
| GalleryView.HeaderTotal | components/gallery/GalleryView.tsx:44 | the header counts all loaded images, at least as many as are shown |
| GalleryView.NoImagesOnlyWhenEmpty | components/gallery/GalleryView.tsx:52-56 | with no query, `noImages` appears iff the archive is empty |
| Display.Pick | components/gallery/ImageDetailView.tsx:27 | the shown text is either the Arabic or the English value |
| Display.PickRule | components/gallery/ImageDetailView.tsx:27 | Arabic is shown exactly for `ar` with a non-empty Arabic value; otherwise English |
| Display.TitleFor | components/gallery/ImageDetailView.tsx:27 | the shown title is the Arabic one exactly for `ar` with a non-empty Arabic title, and the English one otherwise |
| Display.DescriptionFor | components/gallery/ImageDetailView.tsx:28-30 | the shown description is the Arabic one exactly for `ar` with a non-empty Arabic description, and the English one otherwise |
| Display.InsightFor | components/gallery/ImageDetailView.tsx:31-33 | the shown insight is the Arabic one exactly for `ar` with a non-empty Arabic insight, and the English one otherwise |
| Display.EmptyArabicTitleFallsBack | components/gallery/ImageDetailView.tsx:27 | the empty Arabic title an upload stores falls back to English in every locale |
| Display.ImageUrl | components/gallery/ImageGrid.tsx:17 | the source is `r2Url` iff it is non-empty; otherwise the CMS image at the given size |
| Display.Href | components/gallery/ImageGrid.tsx:23 | the link starts with `/locale/gallery/`, ends with the slug, and is exactly as long as the two together |
| Display.HrefInjective | components/gallery/ImageGrid.tsx:23 | for one locale, links are equal iff slugs are equal |
| Display.Preview | components/gallery/ImageGrid.tsx:40 | the preview holds the first min(n, count) tags in their order |
| Display.TagBlock | components/gallery/ImageGrid.tsx:38-49 | the tag block is shown iff tags exist and are non-empty, and then holds the preview |
| ImageGrid.Grid | components/gallery/ImageGrid.tsx:16-54 | one card per image, in order |
| ImageGrid.Card | components/gallery/ImageGrid.tsx:16-50 | a grid card links to `/locale/gallery/slug`, shows the ar-else-en title, the title or `Archive image` as alt text, `r2Url` or the 500×500 CMS image, and shows the first min(3, n) tags only when tags are non-empty |
| ImageList.DateLine | components/gallery/ImageList.tsx:59-65 | the date line appears iff `metadata.date` is a non-empty string |
| ImageList.List | components/gallery/ImageList.tsx:16-71 | one row per image, in order |
| ImageList.Row | components/gallery/ImageList.tsx:16-65 | a row links to `/locale/gallery/slug`, shows the ar-else-en title, the title or `Archive image` as alt text, `r2Url` or the 400×300 CMS image, every tag when there are any, and the date line only with a date |
| ImageList.RowDescription | components/gallery/ImageList.tsx:19-46 | the description follows the ar-else-en rule and is hidden when empty |
| ImageMasonry.Masonry | components/gallery/ImageMasonry.tsx:16-55 | one card per image, in order |
| ImageMasonry.Card | components/gallery/ImageMasonry.tsx:16-50 | a masonry card links to `/locale/gallery/slug`, shows the ar-else-en title, the title or `Archive image` as alt text, `r2Url` or the 800-wide CMS image, and shows the first min(2, n) tags only when tags are non-empty |
| ImageDetailView.DetailOf | components/gallery/ImageDetailView.tsx:26-33 | title, description and insight all follow the ar-else-en rule; the image is `r2Url` or the 1200-wide CMS image |
| ImageDetailView.UploadedImageShowsEnglishTitle | components/gallery/ImageDetailView.tsx:27 | a freshly uploaded image shows its stripped file name as title in every locale |
| ImageDetailView.Join | components/gallery/ImageDetailView.tsx:38 | joining no tags gives `''`, and one tag gives that tag |
| ImageDetailView.JoinLength | components/gallery/ImageDetailView.tsx:38 | the joined text is as long as all tags plus one separator between each pair of neighbours |
| ImageDetailView.JoinAppend | components/gallery/ImageDetailView.tsx:38 | joining two non-empty lists is joining each and putting one separator between them |
| ImageDetailView.JoinSplitsAt | components/gallery/ImageDetailView.tsx:38 | at every split point the joined text is the join of the tags before it, one separator, and the join of the tags after it |
| ImageDetailView.JoinStartsWithFirst | components/gallery/ImageDetailView.tsx:38 | the joined text starts with the first tag |
| ImageDetailView.InitialEditData | components/gallery/ImageDetailView.tsx:35-42 | the form starts with the shown title and description, the tags joined by `, `, and author, source and location, each `''` when absent |
| ImageDetailView.GenerateButtonForArabic | components/gallery/ImageDetailView.tsx:285 | in `ar` without an Arabic insight, the generate button appears iff the English insight is missing too |
| ImageDetailView.WithField | components/gallery/ImageDetailView.tsx:147-197 | an input sets its own field of the form to the typed value and leaves every other field as it was |
| ImageDetailView.DetailPage.constructor | components/gallery/ImageDetailView.tsx:20-42 | not editing, not generating, the form at its initial values |
| ImageDetailView.DetailPage.StartEditing | components/gallery/ImageDetailView.tsx:126 | the edit button opens the form |
| ImageDetailView.DetailPage.Edit | components/gallery/ImageDetailView.tsx:147-197 | an input changes just its own field of the form |
| ImageDetailView.DetailPage.HandleSave | components/gallery/ImageDetailView.tsx:44-60 | saving writes nothing and only closes the form |
| ImageDetailView.DetailPage.Cancel | components/gallery/ImageDetailView.tsx:206 | cancel only closes the form |
| ImageDetailView.DetailPage.HandleGenerateAI | components/gallery/ImageDetailView.tsx:62-91 | the request carries the image id and the locale; the flag is set while it runs and cleared afterwards whatever the outcome; only an ok answer reloads |
| AiLib.RequestFor | lib/ai.ts:19-37 | the request names `gpt-4-vision-preview` with at most 500 tokens |
| AiLib.GenerateAIInsights | lib/ai.ts:3-54 | a missing key is the only error; with a key the request is sent, a readable ok answer gives its first choice's content, and every other outcome gives the locale's fallback text |
| AiLib.PromptChoice | lib/ai.ts:14-16 | the prompt is the Arabic one iff the locale is `ar`, else the English one |
| AiLib.RequestImage | lib/ai.ts:11 | the image sent is `r2Url` when non-empty, else the 800-wide CMS image |
| AiLib.Fallback | lib/ai.ts:50-52 | the fallback is the Arabic text iff the locale is `ar`, and the English text otherwise |
| AiLib.FailureYieldsFallback | lib/ai.ts:40-52 | with a key, a thrown call or a non-ok answer gives the fallback, and that fallback is the Arabic one iff the locale is `ar` |
| AiInsightsRoute.LocaleKey | app/api/ai-insights/route.ts:34 | the key is the locale itself; an absent locale gives the key `undefined` |
| AiInsightsRoute.NewInsights | app/api/ai-insights/route.ts:33-36 | the new insights have exactly the keys locale and `generatedAt`, with the text under the locale and the timestamp under `generatedAt` |
| AiInsightsRoute.PatchDiscardsOtherLocales | app/api/ai-insights/route.ts:30-38 | an insight stored for any other locale is gone after the patch |
| AiInsightsRoute.AnyLocaleIsAKey | app/api/ai-insights/route.ts:34 | the locale is not validated: any string becomes a key that holds the text |
| AiInsightsRoute.Post | app/api/ai-insights/route.ts:5-51 | a non-JSON body gives 500 and a missing or empty id 400, with no call; a missing document gives 404 after one fetch; a missing key gives 500 after the fetch alone; a failed patch gives 500 after the fetch, the model call and the patch; an existing document with a key and a committed patch always gives success, where the document's insights are replaced and the stored text is the returned text; documents change only on success and stay stored under their own `_id` |
| SearchRoute.OptionsFor | app/api/search/route.ts:18-26 | limit 50, highlighting on title, description and tags, and searching exactly `title.<locale>`, `description.<locale>` and `tags` |
| SearchRoute.OptionsInjective | app/api/search/route.ts:21-25 | different locales give different search options |
| SearchRoute.Get | app/api/search/route.ts:4-40 | a missing or empty query gives 400 with no index call; otherwise the query goes out with the locale's options; a failed call gives 500 and an answer gives its hits, estimated total and time |
| SearchRoute.MissingLocaleIsEnglish | app/api/search/route.ts:8 | a missing, an empty and an `en` locale give the same result |
| SearchRoute.ResponseIgnoresOtherFields | app/api/search/route.ts:28-32 | only hits, estimated total and time reach the client |
| SyncScript.ProjectDropsFields | scripts/sync-to-meilisearch.js:26-39 | the image reference, `r2Url` and `aiInsights` never reach the index; id, title and tags do |
| SyncScript.ProjectKeepsIndexedFields | scripts/sync-to-meilisearch.js:26-39 | two images with the same projection agree on every field except the image reference, `r2Url` and `aiInsights` |
| SyncScript.Batch | scripts/sync-to-meilisearch.js:54 | the batch has one entry per CMS document, under its key, holding its projection |
| SyncScript.AddDocuments | scripts/sync-to-meilisearch.js:54 | adding keyed by `_id` replaces the batch's ids and keeps every other indexed document |
| SyncScript.AddKeepsKeyedById | scripts/sync-to-meilisearch.js:54 | when the CMS documents and the index are both stored under their own `_id`, the index still is after the batch is added |
| SyncScript.AddTwiceIsAddOnce | scripts/sync-to-meilisearch.js:54 | resyncing unchanged documents leaves the index as one sync did |
| SyncScript.OrphanSurvives | scripts/sync-to-meilisearch.js:50-54 | a document deleted from the CMS stays in the index, unchanged |
| SyncScript.SyncedDocumentIsCurrent | scripts/sync-to-meilisearch.js:54 | after a sync every CMS document is indexed with its current fields |
| SyncScript.Sync | scripts/sync-to-meilisearch.js:20-83 | a failed fetch exits 1 with no write; an empty fetch exits 0 with no write; otherwise one batch is added, then the script waits for the task and then reads stats; the exit status is 0 iff every step returned; the index is never shrunk, and keys stay equal to ids |
| Archive.OrDefault | components/gallery/ImageDetailView.tsx:36-41 | `x || d` is the value when it is present and non-empty, else the default |

## Left out

- Rendering is not modelled: JSX markup, icons, toasts, translations, and the locale-specific date formatting with `toLocaleDateString`.
- The preview object URLs are not modelled. `URL.createObjectURL` and `revokeObjectURL` have no effect on the state.
- The 100 ms `setTimeout` delays of the progress simulation are not modelled. Only the sequence of progress values is.
- Network calls, their latency and their errors are outcome parameters: R2, the CMS client, OpenAI and Meilisearch. `Date.now()` and `new Date().toISOString()` are parameters too.
- Concurrency is not modelled: overlapping requests, and React state updates interleaving with `uploadFiles`.
- `UploadView.UploadQueue.UploadFiles`: the outer `catch` (a destructive toast) cannot be reached, because every failure is caught per file. The model has no path for it.
- `UploadView.UploadQueue.UploadFiles`: `files.length` and `files[i]` are read from the render in which the upload started. The model assumes no drop or remove happens during the run.
- `Text.Lower`: only ASCII letters are lowered. JavaScript's full Unicode case mapping is not modelled. This matters for Latin letters with accents; Arabic has no case.
- `Text.LowerStrIsLower`: the length fact holds only for the ASCII model. JavaScript `toLowerCase` can lengthen a string: U+0130 becomes `i` followed by U+0307.
- `UploadRoute.SlugOf`: `|slug| <= |name|` holds only for the ASCII model, for the same reason.
- `UploadRoute.Post`: a `file` form field that is a string is not modelled. `UploadForm.file` is a file or nothing. In the source, `''` gives 400, and a non-empty string makes `file.arrayBuffer()` throw, giving 500.
- `UploadView.UploadQueue.RemoveFile`: the thrown `TypeError` is reported as `threw`. What React then does with it is not modelled. The page's only caller passes the index of a rendered entry.
- `AiLib.GenerateAIInsights`: the content is taken to be a string. A `null` content and a `urlFor` that throws are not modelled.
- `AiInsightsRoute.Post`: the CMS's own `_updatedAt` change on patch is not modelled. A JSON `null` locale, which would give the key `null`, is not modelled either.
- `SyncScript.Sync`: an enqueued batch is taken to be applied. A task that the engine later marks failed is not modelled, and neither are the script's console messages.
- `ImageDetailView.DetailPage`: the page does not re-read the document after a save. There is no save request to model.
- `lib/meilisearch.ts` is not part of this model. Its wrappers swallow errors, and no modelled code calls them, so no indexing happens on upload.
- The index configuration in `scripts/init-meilisearch.js` and `lib/meilisearch.ts` is not part of this model. Two facts about it:
  - the branch for an index that already exists does not update the ranking rules;
  - the filterable fields in `lib/meilisearch.ts:26-30` do not include `_createdAt`.
- Search ranking and highlighting are internal to the engine. The engine's answer is a parameter.
- `lib/sanity.ts` and `sanity/schemas/archiveImage.ts` are not part of this model. Only the document's fields and the `featured`/`order` defaults are used.
- The GROQ queries and `urlFor` are not modelled. `urlFor` is the symbolic `Display.Cms`.
