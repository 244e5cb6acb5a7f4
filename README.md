# Painting catalog: a Dafny model

A model of the catalog behind an artist's portfolio site. Visitors browse a gallery of paintings. An administrator edits the catalog: they create and update paintings through a form, manage each painting's images in an image editor, drag the admin list into a new order, toggle a painting between available, sold and hidden, and delete paintings. The catalog lives in a hosted back end with a `paintings` table and a `painting_images` table, and the image files live in a storage bucket.

The model covers the following:

- **`Slugify`**: the title-to-slug pipeline. Proved: the output is always a well-formed slug; every letter and digit of the lowered title survives in order; the function is idempotent; and the worked example "Sunset, Over the Bay!" gives `sunset-over-the-bay`.
- **`Validation`**: the image-set rules, checked rule by rule, and the form schema. The parsed form is exactly the set of values the schema accepts.
- **`ImageUploader`**: the image editor's handlers. Adding files, dropping files, removing, setting primary or secondary, editing alt text, dragging to reorder, and the effect that makes a lone image primary.
- **`ArtworkDetail`**: the carousel order, which puts the secondary image first, and when the arrows and dots are shown.
- **`CatalogViews`**: the two list reads, public and admin. Each joins images onto paintings, filters, orders by `sort_index` then newest first, and annotates each painting with its primary and secondary images and its images sorted by position.
- **`Store`**: the back end, as a class `CatalogStore` over the two tables and the bucket.
  - Every call may fail, nondeterministically.
  - Deleting a painting cascades to its image rows.
  - An image insert that names a missing painting fails as a whole.
  - The invariant `Valid` keeps painting ids unique and every image row's painting present.
- **`PaintingsHooks`**: the mutations and the admin cache.
  - The reorder mutation patches the cache optimistically, writes rows one at a time, and rolls the cache back on failure. Proved: once every write succeeds, the store holds exactly the rows the patch predicted.
  - Also covered: the status update, and deletion with blob clean-up.
- **`PaintingsList`**: the admin list's drag handler, which saves positions `0, 10, 20, …`, and the two status toggles. Proved: the optimistic list after a drag is exactly the dropped order.
- **`PaintingForm`**: the submit gate and the create and update paths. Create uses a slug fallback and a compensating delete. Update partitions the working set into uploads, kept and deleted images, and rebuilds the image rows with dense positions. Both rely on the sequential upload loop. Every store failure is traced to the state it leaves behind. The submit handler is modelled twice: `OnSubmit` as written, where the medium and frame never reach the request (see Findings), and `OnSubmitCorrected`, which sends them.

`Seqs`, `Sorting`, `JsText`, `Optional` and `Types` hold the shared vocabulary:

- `Seqs`: filter, find, splice and map over sequences;
- `Sorting`: a stable sort on a two-part key;
- `JsText`: JavaScript whitespace and `trim`;
- `Optional`: an option type;
- `Types`: the records of `src/types/painting.ts`.

The three string-valued status values become the datatype `Status`. Identifiers are natural numbers. Unset fields become `Option`.

## Model

| member | source | states |
|---|---|---|
| Slugify.ToLower | src/lib/slugify.ts:8 | the result has the same length and no `A`–`Z`; each capital becomes the same letter in lower case, and every other character is unchanged |
| Slugify.SlugifyIsSlug | src/lib/slugify.ts:7-13 | every result consists of `a-z`, `0-9` and `-` only, has no `--`, and does not start or end with `-` |
| Slugify.SlugifyKeepsAlnum | src/lib/slugify.ts:7-13 | dropping the hyphens from the slug leaves exactly the letters and digits of the lowered title, in order |
| Slugify.SlugifyOfPunctuation | src/lib/slugify.ts:10-13 | a title with no letter or digit slugifies to the empty string |
| Slugify.SlugIsFixpoint | src/lib/slugify.ts:7-13 | a string that is already a slug is returned unchanged |
| Slugify.SlugifyIdempotent | src/lib/slugify.ts:7-13 | slugifying a slug changes nothing |
| Slugify.SunsetExample | src/lib/slugify.ts:7-13 | "Sunset, Over the Bay!" becomes "sunset-over-the-bay" |
| JsText.TrimStartSpec | src/lib/validation.ts:42 | the leading trim removes only whitespace and keeps a suffix that does not start with whitespace |
| JsText.TrimEndSpec | src/lib/validation.ts:42 | the trailing trim removes only whitespace and keeps a prefix that does not end with whitespace |
| JsText.TrimEmptyIffBlank | src/lib/validation.ts:42 | `trim()` yields the empty string exactly when every character is whitespace |
| Validation.ValidateImagesRules | src/lib/validation.ts:21-47 | each error is reported exactly when the earlier rules pass and its own condition holds (none, more than six, no primary, no secondary, blank primary alt); the set is accepted exactly when no rule fires |
| Validation.SingleUnflaggedImagePasses | src/lib/validation.ts:41-46 | a lone image that is not flagged primary passes with no alt check |
| Validation.SinglePrimaryImageNeedsAlt | src/lib/validation.ts:41-46 | a lone primary image passes exactly when its alt text is not blank |
| Validation.ParseStatus | src/lib/validation.ts:9 | a parsed status names the string it came from |
| Validation.StatusNameRoundTrip | src/lib/validation.ts:9 | each status parses back from its name |
| Validation.ParseForm | src/lib/validation.ts:3-10 | the schema parses the values exactly when its length, positivity and enum rules hold; the parsed title, height, width, description and price are the values entered, and the status is the one named |
| Validation.ParseFormIgnoresMediumAndFrame | src/lib/validation.ts:3-10 | the parsed form is the same whatever medium and frame flag are entered |
| Validation.ParseFormFields | src/components/admin/PaintingFormModal.tsx:115-124 | the save data exists exactly when the schema accepts, and carries every form field, medium and frame included |
| ImageUploader.AddFilesBound | src/components/admin/ImageUploader.tsx:24-30 | a batch that would pass six images is refused whole, and a list of at most six stays at most six |
| ImageUploader.AddFilesAppends | src/components/admin/ImageUploader.tsx:32-41 | an accepted batch keeps the old list as a prefix and appends one entry per file, in order, at position old length + index, with empty alt, primary only for the first file into an empty list, and secondary only for the first file into a one-image list |
| ImageUploader.DropAddsOnlyAcceptedTypes | src/components/admin/ImageUploader.tsx:95-118 | every entry a drop adds holds a JPEG, PNG or WebP file |
| ImageUploader.HandleRemove | src/components/admin/ImageUploader.tsx:44-53 | the entry is removed and the rest keep their order and data; the one remaining entry, if only one remains, is primary |
| ImageUploader.SetPrimarySpec | src/components/admin/ImageUploader.tsx:55-60 | exactly the chosen entry is primary, nothing else changes, and the validator's primary is that entry |
| ImageUploader.SetSecondarySpec | src/components/admin/ImageUploader.tsx:62-67 | exactly the chosen entry is secondary, nothing else changes, and the secondary rule is met |
| ImageUploader.SetAltSpec | src/components/admin/ImageUploader.tsx:69-73 | only the chosen entry's alt text changes |
| ImageUploader.AutoPrimarySpec | src/components/admin/ImageUploader.tsx:18-22 | a lone image becomes primary and is otherwise unchanged, longer lists are untouched, and a lone image then validates exactly when its alt is not blank |
| ImageUploader.HandleDragEnd | src/components/admin/ImageUploader.tsx:75-88 | no target or a self-drop changes nothing; otherwise positions become 0..n-1, the dragged entry lands at the target index, the others keep their relative order, and the entries are a permutation of the old ones |
| ImageUploader.UnpositionedCommutesWithMove | src/components/admin/ImageUploader.tsx:83-87 | renumbering after a splice-move differs from the move only in positions |
| ArtworkDetail.ReorderedSpec | src/components/ArtworkDetailModal.tsx:23-30 | without a secondary image the slides are the images as stored; with one, the first secondary leads and the non-secondary images follow in order, so further secondaries are dropped |
| ArtworkDetail.ReorderedIsPermutation | src/components/ArtworkDetailModal.tsx:23-30 | with at most one secondary image, the slides are a rearrangement of all images |
| ArtworkDetail.ReorderedMembers | src/components/ArtworkDetailModal.tsx:23-30 | every slide is one of the images, and every non-secondary image is a slide |
| ArtworkDetail.MultipleImagesIff | src/components/ArtworkDetailModal.tsx:31 | navigation shows exactly when there are at least two slides, stated over the stored images |
| ArtworkDetail.SlideAlt | src/components/ArtworkDetailModal.tsx:51 | a slide's alt text is always either the image's own alt or the painting's title, the own alt whenever it is non-empty, and it is empty only when both are |
| Sorting.SortBy | src/hooks/usePaintings.ts:30-31 | the result is ordered by the key and is a permutation of the input |
| Sorting.SortByStable | src/hooks/usePaintings.ts:39 | the sort is stable: for every key, the elements with that key keep their input order |
| Sorting.SortedArrangementUnique | src/hooks/usePaintings.ts:139 | a list ordered by a key with no ties is the only ordering of its elements |
| CatalogViews.JoinSpec | src/hooks/usePaintings.ts:15-28 | one row per painting, nothing changed but its image list, which holds an image row exactly when that row references the painting, and nothing else |
| CatalogViews.AnnotateSpec | src/hooks/usePaintings.ts:35-40 | primary and secondary are the first flagged images in join order, or none; all images are the painting's images sorted by position, images at equal positions staying in join order; the sort is in place, so the joined list is sorted too; no other column changes |
| CatalogViews.PublicViewSpec | src/hooks/usePaintings.ts:5-43 | the gallery holds exactly the available and sold paintings, each once and annotated, ordered by sort_index then newest first |
| CatalogViews.AdminViewSpec | src/hooks/usePaintings.ts:45-84 | the admin list holds every painting once, annotated, in the same order |
| PaintingsHooks.LookupSortIndex | src/hooks/usePaintings.ts:131 | an id with no entry gives none; otherwise the value comes from the id's last entry |
| PaintingsHooks.PatchRowsSpec | src/hooks/usePaintings.ts:134-138 | each row's sort_index becomes its id's last listed value, or stays the same when unlisted; no other column changes |
| PaintingsHooks.PatchCacheSpec | src/hooks/usePaintings.ts:127-140 | an empty cache stays empty; otherwise the new list is the patched rows, each once, ordered by sort_index, with rows of equal sort_index in cached order |
| PaintingsHooks.PersistMatchesPatch | src/hooks/usePaintings.ts:110-117 | writing the updates one after another gives exactly the optimistic patch of the rows |
| PaintingsHooks.AdminCache.OnMutate | src/hooks/usePaintings.ts:119-143 | returns the old cached list, and the cache becomes the optimistic list |
| PaintingsHooks.AdminCache.OnError | src/hooks/usePaintings.ts:144-149 | a snapshot, when present, is restored |
| PaintingsHooks.PersistSortIndexes | src/hooks/usePaintings.ts:108-118 | the updates are written in order up to the first failing one, which is reported; nothing else in the store changes |
| PaintingsHooks.UpdateSortIndex | src/hooks/usePaintings.ts:104-155 | on success the cache is the optimistic list and the store holds the patched rows; on failure the cache is back to its old value and the store holds a strict prefix of the writes |
| PaintingsHooks.UpdatePaintingStatus | src/hooks/usePaintings.ts:86-102 | on success only that painting's status changes; on failure nothing does |
| PaintingsHooks.SetStatusSpec | src/hooks/usePaintings.ts:91-94 | a status update touches only the status column of the row with that id |
| PaintingsHooks.DeletePainting | src/hooks/usePaintings.ts:157-192 | a failed delete changes nothing; a successful delete removes the painting and its image rows, and either keeps the bucket or removes exactly the painting's image files |
| PaintingsHooks.FetchPublicPaintings | src/hooks/usePaintings.ts:5-43 | a successful read returns the public view of the current tables |
| PaintingsHooks.FetchAdminPaintings | src/hooks/usePaintings.ts:45-84 | a successful read returns the admin view of the current tables |
| PaintingsList.SortUpdates | src/components/admin/PaintingsList.tsx:32-35 | one update per painting, same ids in the same order, with increasing non-negative sort_index values |
| PaintingsList.DragPatchIsReordered | src/components/admin/PaintingsList.tsx:25-38 | after a drag, the optimistic list is exactly the dropped order with sort_index 0, 10, 20, … |
| PaintingsList.HandleDragEnd | src/components/admin/PaintingsList.tsx:20-43 | no target, a self-drop or an unloaded list changes nothing; otherwise the reorder is the splice-move of the dragged row to the target's index, and a successful save leaves the cache as that order with spaced indexes and the store with the patched rows, while a failed save restores the cache |
| PaintingsList.ToggleStatus | src/components/admin/PaintingsList.tsx:46 | the result is never hidden, and is sold exactly when the status was available |
| PaintingsList.ToggleHidden | src/components/admin/PaintingsList.tsx:56 | the result is hidden exactly when the status was not hidden, and is never sold |
| PaintingsList.TogglesRoundTrip | src/components/admin/PaintingsList.tsx:45-63 | toggling status twice restores every status but hidden; toggling visibility twice restores every status but sold, which comes back as available |
| PaintingsList.HandleToggleStatus | src/components/admin/PaintingsList.tsx:45-53 | on success the painting's status is the toggled one, and nothing else changes |
| PaintingsList.HandleToggleHidden | src/components/admin/PaintingsList.tsx:55-63 | on success the painting's status is the toggled visibility, and nothing else changes |
| Store.Stored | src/components/admin/PaintingFormModal.tsx:141-143 | a stored image row reads back as the inserted record, under the id the store assigned, with its alt text set |
| Store.SetFieldsSpec | src/components/admin/PaintingFormModal.tsx:154-166 | an update by id changes only that row, which then holds every value sent; when the medium and frame keys are left out, every row keeps its medium and frame; columns the form does not write never change |
| Store.WithoutPaintingIds | src/hooks/usePaintings.ts:169-172 | deleting a painting keeps ids distinct and removes exactly that id |
| Store.OtherImagesMembers | src/hooks/usePaintings.ts:168 | the cascade leaves only image rows of other paintings |
| Store.CatalogStore.UpdateStatus | src/hooks/usePaintings.ts:91-94 | on success the status is set; otherwise nothing changes |
| Store.CatalogStore.UpdateSortIndex | src/hooks/usePaintings.ts:111-114 | on success the sort_index is set; otherwise nothing changes |
| Store.CatalogStore.UpdateFields | src/components/admin/PaintingFormModal.tsx:154-166 | on success the columns sent are set; otherwise nothing changes |
| Store.CatalogStore.InsertPainting | src/components/admin/PaintingFormModal.tsx:113-127 | on success one row is appended, with a fresh id, every value sent and the given slug; columns left out take the store's defaults |
| Store.CatalogStore.DeletePainting | src/hooks/usePaintings.ts:169-172 | on success the painting and, by cascade, its image rows are removed |
| Store.CatalogStore.SelectImages | src/components/admin/PaintingFormModal.tsx:175-178 | a successful read returns exactly the painting's image rows |
| Store.CatalogStore.SelectImageUrls | src/hooks/usePaintings.ts:163-166 | a successful read returns the URLs of the painting's image rows |
| Store.CatalogStore.DeleteImagesOf | src/components/admin/PaintingFormModal.tsx:197 | on success exactly the painting's image rows are removed |
| Store.CatalogStore.InsertImages | src/components/admin/PaintingFormModal.tsx:141-143 | all rows or none; a row naming a missing painting fails the insert; inserted rows get fresh ids |
| Store.CatalogStore.Upload | src/components/admin/PaintingFormModal.tsx:235-243 | a successful upload adds one file under a URL not used before |
| Store.CatalogStore.RemoveBlobs | src/hooks/usePaintings.ts:183-185 | on success the named files are gone; otherwise nothing changes |
| PaintingForm.ResolveSlug | src/components/admin/PaintingFormModal.tsx:106-107 | the store's suggestion when it is non-empty, else the slugified title, which is a well-formed slug |
| PaintingForm.UploadImages | src/components/admin/PaintingFormModal.tsx:226-254 | uploads the entries with files, in order; on success there is one result per file, pairing its URL with its alt and flags; on failure fewer files were uploaded; every URL is new and stays in the bucket |
| PaintingForm.RecordsRoundTrip | src/components/admin/PaintingFormModal.tsx:141-143 | reading back the stored rows, minus their ids, gives the inserted records |
| PaintingForm.CreateRecordsSpec | src/components/admin/PaintingFormModal.tsx:132-139 | a new painting gets one row per upload, in order, at positions 0, 1, 2, … with the entry's URL, alt text and flags |
| PaintingForm.UpdateRecordsSpec | src/components/admin/PaintingFormModal.tsx:200-217 | kept images take positions 0..k-1 with their stored URL, alt text and flags, and uploads take k..k+u-1, each group in working-set order |
| PaintingForm.UpdateRecordsIgnorePosition | src/components/admin/PaintingFormModal.tsx:200-217 | an entry's position in the working set does not reach the store |
| PaintingForm.PartitionSpec | src/components/admin/PaintingFormModal.tsx:171-182 | uploads are exactly the entries with files and kept entries exactly those with ids; an original row is deleted exactly when no kept entry has its id; when each entry has exactly one of the two, the two groups make up the whole working set |
| PaintingForm.CreatePainting | src/components/admin/PaintingFormModal.tsx:104-150 | an upload or insert failure leaves both tables unchanged; an image-row failure leaves the images unchanged and the new row either removed or left behind; success appends one row with a fresh id, the values sent and the resolved slug, plus exactly the create records as its image rows; uploaded files always stay |
| PaintingForm.UpdatePainting | src/components/admin/PaintingFormModal.tsx:152-224 | a failed column write changes nothing; after that the columns sent are set, the removed images' files may be gone and the uploads are added; on success the image rows are the update records (behind the old rows if their delete failed) |
| PaintingForm.RemoveDeletedFiles | src/components/admin/PaintingFormModal.tsx:174-191 | either nothing is removed or exactly the files of the stored images no kept entry refers to |
| PaintingForm.ReplaceImages | src/components/admin/PaintingFormModal.tsx:196-223 | the old rows are removed if their delete succeeded, and the new rows are appended on success |
| PaintingForm.WriteOf | src/components/admin/PaintingFormModal.tsx:115-125 | the body sent for parsed form data carries the six schema fields and leaves the medium and frame keys out |
| PaintingForm.SubmittedWrite | src/components/admin/PaintingFormModal.tsx:32-33 | a body exists exactly when the schema accepts the values; it carries what the schema parsed and no medium or frame |
| PaintingForm.CorrectedSubmittedWrite | src/components/admin/PaintingFormModal.tsx:156-165 | a body exists exactly when the schema accepts the values; it carries every form field, the medium and frame entered included |
| PaintingForm.Submit | src/components/admin/PaintingFormModal.tsx:77-102 | no body or an image-rule error writes nothing and reports itself; a save happens only when both checks pass, and then the edited row takes the body or a new row holding it is appended |
| PaintingForm.OnSubmit | src/components/admin/PaintingFormModal.tsx:77-102 | as written: a schema rejection or an image-rule error writes nothing; a saved edit sets the six schema columns and leaves every row's medium and frame as they were; a saved create appends a row holding the six parsed fields |
| PaintingForm.OnSubmitCorrected | src/components/admin/PaintingFormModal.tsx:77-102 | as intended: a saved edit sets all eight form columns, medium and frame included; a saved create appends a row whose eight form columns are the values submitted |

## Left out

- Image previews: object URLs and their revocation are display only.
- File names in the bucket. The upload path names files from the clock and a random string, and deletion derives names back from URLs. The model identifies a file by its public URL, and the store chooses a URL not used before.
- Column selection: the reads return whole rows rather than the selected columns, and the join carries every image column.
- Database defaults: `sort_index`, `created_at`, the identifiers of new rows, and the medium and frame columns when an insert leaves them out are all chosen by the store.
- Ties beyond the sort keys: the database's order among equal keys is modelled as table order.
- Query-cache plumbing: cancelling queries, invalidation, refetching and `onSettled` are not modelled. Neither are concurrent mutations; each mutation runs alone.
- Toasts, alerts, dialogs, the saving flag and closing the modal are user-interface feedback.
- Effect timing: the auto-primary effect is modelled as a function applied to the list it sees.
- Drag plumbing of the drag-and-drop library: drag ids are given as indexes (image editor) or painting ids (admin list).
- PaintingsList.HandleDragEnd: requires both dragged ids to be in the cached list. The source's `findIndex` result of -1 for a missing id is not modelled.
- ImageUploader.HandleDragEnd: requires both indexes in range, for the same reason.
- Form numbers: `parseFloat` and NaN. The form's number fields are already real numbers or absent.
- Slugify.ToLower: only `A`–`Z` are lowered. Most other capitals lower to letters the next stage strips anyway, but a few, such as the Kelvin sign and dotted capital I, lower to ASCII letters in JavaScript and would survive there.
- Character handling: zod's string lengths are counted in characters here, not UTF-16 code units.
- The `generate_unique_slug` remote procedure is opaque: it answers any string or fails.
- PaintingForm.UpdateRecords: the kept entry's `image_url!` is taken as the empty string when absent, which the source rules out by construction.
- Authentication, the rest of the admin dashboard, and the public pages' layout are outside the catalog's logic.

## Findings

| source | as written | input that shows it | evidently intended | confidence | as-written member | corrected member |
|---|---|---|---|---|---|---|
| src/lib/validation.ts:3-10 with src/components/admin/PaintingFormModal.tsx:122-123, 163-164 | the form schema declares no `medium_type` or `frame_included`, and a zod object drops unknown keys, so both are `undefined` in the data handed to the save; the request leaves undefined keys out, so an edit keeps the row's old medium and frame and a new painting gets the column defaults | a form with medium "Oil on canvas" and the frame box ticked, editing a painting stored as "Acrylic" without a frame | the medium and frame the form edits reach the painting row | not executed | PaintingForm.OnSubmit | PaintingForm.OnSubmitCorrected |
