/**
 * Saving the painting form: the submit gate (form schema, then the image rules), and the
 * create and update paths, which upload the new image files, write the painting row and
 * rebuild its image rows with dense positions.
 */
module PaintingForm {
  import opened Optional
  import opened Seqs
  import opened Types
  import opened Store
  import opened Validation
  import Slugify

  /** What `uploadImages` collects for each uploaded file. */
  datatype Uploaded = Uploaded(url: Url, alt: string, is_primary: bool, is_secondary: bool)

  datatype SaveError = UploadFailed | PaintingWriteFailed | ImagesWriteFailed

  predicate HasFile(img: ImageFile) { img.file.Some? }
  predicate HasId(img: ImageFile) { img.id.Some? }

  /** The entry `img` once its file was stored at `url`. */
  function AsUploaded(img: ImageFile, url: Url): Uploaded {
    Uploaded(url, img.alt, img.is_primary, img.is_secondary)
  }

  /** The entries with files, paired in order with the URLs their uploads returned. */
  function UploadedFrom(files: seq<ImageFile>, urls: seq<Url>): (r: seq<Uploaded>)
    requires |urls| == |files|
    ensures |r| == |files|
  {
    seq(|files|, i requires 0 <= i < |files| => AsUploaded(files[i], urls[i]))
  }

  /** The slug of a new painting: the store's suggestion when it is a non-empty string. */
  function ResolveSlug(remote: Option<string>, title: string): (r: string)
    ensures remote.Some? && remote.value != "" ==> r == remote.value
    ensures remote.None? || remote.value == "" ==> r == Slugify.Slugify(title) && Slugify.IsSlug(r)
  {
    Slugify.SlugifyIsSlug(title);
    if remote.Some? && remote.value != "" then remote.value else Slugify.Slugify(title)
  }

  /** The image rows a painting gets for uploaded files, numbered from `offset`. */
  function UploadedRecords(paintingId: Id, uploaded: seq<Uploaded>, offset: nat): (r: seq<ImageRecord>)
    ensures |r| == |uploaded|
  {
    seq(|uploaded|, i requires 0 <= i < |uploaded| =>
      ImageRecord(paintingId, uploaded[i].url, uploaded[i].alt, uploaded[i].is_primary,
                  uploaded[i].is_secondary, offset + i))
  }

  /** The image rows of a new painting. */
  function CreateRecords(paintingId: Id, uploaded: seq<Uploaded>): seq<ImageRecord> {
    UploadedRecords(paintingId, uploaded, 0)
  }

  /**
   * The image rows that replace an edited painting's: the kept images first, then the
   * uploaded ones, numbered densely from 0. A kept entry always carries its stored URL;
   * the empty string stands for the missing one the source's `!` rules out.
   */
  function UpdateRecords(paintingId: Id, keep: seq<ImageFile>, uploaded: seq<Uploaded>): (r: seq<ImageRecord>)
    ensures |r| == |keep| + |uploaded|
  {
    seq(|keep|, i requires 0 <= i < |keep| =>
      ImageRecord(paintingId, keep[i].image_url.GetOr(""), keep[i].alt, keep[i].is_primary,
                  keep[i].is_secondary, i))
    + UploadedRecords(paintingId, uploaded, |keep|)
  }

  /** The working-set entries whose files must be uploaded. */
  function ToUpload(images: seq<ImageFile>): seq<ImageFile> { Filter(images, HasFile) }

  /** The working-set entries that are already stored. */
  function ToKeep(images: seq<ImageFile>): seq<ImageFile> { Filter(images, HasId) }

  predicate Kept(keep: seq<ImageFile>, id: Id) {
    exists i :: 0 <= i < |keep| && keep[i].id == Some(id)
  }

  function NotKept(keep: seq<ImageFile>): PaintingImage -> bool {
    (orig: PaintingImage) => !Kept(keep, orig.id)
  }

  /** The stored images the user removed from the working set. */
  function ToDelete(originals: seq<PaintingImage>, keep: seq<ImageFile>): seq<PaintingImage> {
    Filter(originals, NotKept(keep))
  }

  /** Reading back the rows the store kept for a batch of records gives the batch. */
  lemma RecordsRoundTrip(records: seq<ImageRecord>, firstId: nat)
    ensures RecordsOf(StoredAll(records, firstId)) == records
  {
  }

  /**
   * A new painting gets one image row per uploaded file, in working-set order, with
   * positions 0, 1, 2, ... and the entry's alt text and flags.
   */
  lemma CreateRecordsSpec(paintingId: Id, files: seq<ImageFile>, urls: seq<Url>)
    requires |urls| == |files|
    ensures var r := CreateRecords(paintingId, UploadedFrom(files, urls));
      && |r| == |files|
      && forall i :: 0 <= i < |r| ==>
           && r[i].painting_id == paintingId && r[i].position == i && r[i].image_url == urls[i]
           && r[i].alt == files[i].alt && r[i].is_primary == files[i].is_primary
           && r[i].is_secondary == files[i].is_secondary
  {
  }

  /**
   * An edited painting's new rows: kept images at positions 0..k-1 with their stored URL,
   * alt text and flags, in working-set order, then the uploads at k..k+u-1 in the same
   * order; the rows' positions are exactly 0..k+u-1.
   */
  lemma UpdateRecordsSpec(paintingId: Id, keep: seq<ImageFile>, files: seq<ImageFile>, urls: seq<Url>)
    requires |urls| == |files|
    ensures var r := UpdateRecords(paintingId, keep, UploadedFrom(files, urls));
      && |r| == |keep| + |files|
      && (forall i :: 0 <= i < |r| ==> r[i].painting_id == paintingId && r[i].position == i)
      && (forall i :: 0 <= i < |keep| ==>
            && (keep[i].image_url.Some? ==> r[i].image_url == keep[i].image_url.value)
            && r[i].alt == keep[i].alt && r[i].is_primary == keep[i].is_primary
            && r[i].is_secondary == keep[i].is_secondary)
      && (forall i :: 0 <= i < |files| ==>
            && r[|keep| + i].image_url == urls[i] && r[|keep| + i].alt == files[i].alt
            && r[|keep| + i].is_primary == files[i].is_primary
            && r[|keep| + i].is_secondary == files[i].is_secondary)
  {
  }

  /** The position an entry had in the working set does not reach the store. */
  lemma UpdateRecordsIgnorePosition(paintingId: Id, keep: seq<ImageFile>, uploaded: seq<Uploaded>, k: nat, p: int)
    requires k < |keep|
    ensures UpdateRecords(paintingId, keep[k := keep[k].(position := p)], uploaded)
            == UpdateRecords(paintingId, keep, uploaded)
  {
    var keep' := keep[k := keep[k].(position := p)];
    assert forall i :: 0 <= i < |keep| ==> keep'[i].(position := keep[i].position) == keep[i];
  }

  /**
   * The partition: uploads are exactly the entries with a file and kept ones exactly
   * those with an id, each in working-set order; an original row is deleted exactly when
   * no kept entry carries its id. When every entry has either a file or an id but not
   * both, uploads and kept entries together account for the whole working set.
   */
  lemma PartitionSpec(images: seq<ImageFile>, originals: seq<PaintingImage>)
    ensures forall i :: 0 <= i < |ToUpload(images)| ==> ToUpload(images)[i] in images && HasFile(ToUpload(images)[i])
    ensures forall i :: 0 <= i < |images| && HasFile(images[i]) ==> images[i] in ToUpload(images)
    ensures forall i :: 0 <= i < |ToKeep(images)| ==> ToKeep(images)[i] in images && HasId(ToKeep(images)[i])
    ensures forall i :: 0 <= i < |images| && HasId(images[i]) ==> images[i] in ToKeep(images)
    ensures forall i :: 0 <= i < |originals| ==>
      (originals[i] in ToDelete(originals, ToKeep(images)) <==> !Kept(ToKeep(images), originals[i].id))
    ensures (forall i :: 0 <= i < |images| ==> HasFile(images[i]) != HasId(images[i])) ==>
      multiset(ToUpload(images)) + multiset(ToKeep(images)) == multiset(images)
  {
    FilterMembers(images, HasFile);
    FilterMembers(images, HasId);
    var del := ToDelete(originals, ToKeep(images));
    FilterMembers(originals, NotKept(ToKeep(images)));
    forall i | 0 <= i < |originals| && originals[i] in del
      ensures !Kept(ToKeep(images), originals[i].id)
    {
      var j :| 0 <= j < |del| && del[j] == originals[i];
    }
    if forall i :: 0 <= i < |images| ==> HasFile(images[i]) != HasId(images[i]) {
      ComplementaryFilters(images);
    }
  }

  lemma {:induction false} ComplementaryFilters(images: seq<ImageFile>)
    requires forall i :: 0 <= i < |images| ==> HasFile(images[i]) != HasId(images[i])
    ensures multiset(ToUpload(images)) + multiset(ToKeep(images)) == multiset(images)
  {
    if images != [] {
      ComplementaryFilters(images[1..]);
      assert images == [images[0]] + images[1..];
    }
  }

  lemma UrlSetSnoc(urls: seq<Url>, u: Url)
    ensures UrlSet(urls + [u]) == UrlSet(urls) + {u}
  {
    assert (urls + [u])[|urls|] == u;
    forall x | x in UrlSet(urls) ensures x in UrlSet(urls + [u]) {
      var i :| 0 <= i < |urls| && urls[i] == x;
      assert (urls + [u])[i] == x;
    }
  }

  lemma FilterStep(s: seq<ImageFile>, i: nat)
    requires i < |s|
    ensures Filter(s[..i + 1], HasFile) == Filter(s[..i], HasFile) + (if HasFile(s[i]) then [s[i]] else [])
  {
    assert s[..i + 1] == s[..i] + [s[i]];
    FilterConcat(s[..i], [s[i]], HasFile);
    assert [s[i]][1..] == [];
  }

  lemma FilterPrefixShorter(s: seq<ImageFile>, i: nat)
    requires i < |s| && HasFile(s[i])
    ensures |Filter(s[..i], HasFile)| < |Filter(s, HasFile)|
  {
    FilterStep(s, i);
    assert s == s[..i + 1] + s[i + 1..];
    FilterConcat(s[..i + 1], s[i + 1..], HasFile);
  }

  /**
   * `uploadImages`: the files are uploaded one at a time in order (entries without a file
   * are skipped); the first failed upload ends the loop with an error, and the files
   * already uploaded stay in the bucket. On success one result per file is returned, in
   * order. `urls` are the URLs of the files uploaded.
   */
  method UploadImages(store: CatalogStore, pending: seq<ImageFile>)
    returns (uploaded: Option<seq<Uploaded>>, ghost urls: seq<Url>)
    requires store.Valid()
    modifies store
    ensures store.Valid()
    ensures uploaded.Some? ==> |urls| == |ToUpload(pending)| && uploaded.value == UploadedFrom(ToUpload(pending), urls)
    ensures uploaded.None? ==> |urls| < |ToUpload(pending)|
    ensures store.blobs == old(store.blobs) + UrlSet(urls)
    ensures forall k :: 0 <= k < |urls| ==> urls[k] !in old(store.blobs)
    ensures forall k, l :: 0 <= k < l < |urls| ==> urls[k] != urls[l]
    ensures store.paintings == old(store.paintings) && store.images == old(store.images)
    ensures store.nextId == old(store.nextId)
  {
    var list: seq<Uploaded> := [];
    urls := [];
    var i := 0;
    while i < |pending|
      invariant 0 <= i <= |pending|
      invariant store.Valid()
      invariant |urls| == |Filter(pending[..i], HasFile)|
      invariant list == UploadedFrom(Filter(pending[..i], HasFile), urls)
      invariant store.blobs == old(store.blobs) + UrlSet(urls)
      invariant forall k :: 0 <= k < |urls| ==> urls[k] !in old(store.blobs)
      invariant forall k, l :: 0 <= k < l < |urls| ==> urls[k] != urls[l]
      invariant store.paintings == old(store.paintings) && store.images == old(store.images)
      invariant store.nextId == old(store.nextId)
    {
      var image := pending[i];
      FilterStep(pending, i);
      if image.file.Some? {
        var url := store.Upload(image.file.value);
        if url.None? {
          FilterPrefixShorter(pending, i);
          return None, urls;
        }
        UrlSetSnoc(urls, url.value);
        list := list + [AsUploaded(image, url.value)];
        urls := urls + [url.value];
      }
      i := i + 1;
    }
    assert pending[..|pending|] == pending;
    return Some(list), urls;
  }

  /** A new painting's id is referenced by no image row, so the cascade has nothing to remove. */
  lemma FreshIdHasNoImages(rows: seq<Painting>, images: seq<PaintingImage>, id: Id)
    requires forall i :: 0 <= i < |images| ==> images[i].painting_id in PaintingIds(rows)
    requires id !in PaintingIds(rows)
    ensures ImagesOf(images, id) == [] && OtherImages(images, id) == images
  {
    FilterNone(images, BelongsTo(id));
    FilterAll(images, BelongsElsewhere(id));
  }

  /** Deleting a row just appended with a fresh id gives back the rows before it. */
  lemma WithoutFreshRow(rows: seq<Painting>, row: Painting)
    requires row.id !in PaintingIds(rows)
    ensures WithoutPainting(rows + [row], row.id) == rows
  {
    assert forall i :: 0 <= i < |rows| ==> rows[i].id in PaintingIds(rows);
    FilterAll(rows, IsOtherPainting(row.id));
    FilterConcat(rows, [row], IsOtherPainting(row.id));
    assert [row][1..] == [];
  }

  /** Rows that all belong to painting `id` are exactly its images once its old ones are gone. */
  lemma ImagesOfRebuilt(images: seq<PaintingImage>, id: Id, added: seq<PaintingImage>)
    requires forall i :: 0 <= i < |added| ==> added[i].painting_id == id
    ensures ImagesOf(OtherImages(images, id) + added, id) == added
    ensures ImagesOf(images, id) == [] ==> ImagesOf(images + added, id) == added
  {
    OtherImagesMembers(images, id);
    FilterConcat(OtherImages(images, id), added, BelongsTo(id));
    FilterConcat(images, added, BelongsTo(id));
    FilterNone(OtherImages(images, id), BelongsTo(id));
    FilterAll(added, BelongsTo(id));
  }

  lemma ToUploadIdempotent(images: seq<ImageFile>)
    ensures ToUpload(ToUpload(images)) == ToUpload(images)
  {
    FilterMembers(images, HasFile);
    FilterAll(ToUpload(images), HasFile);
  }

  lemma StoredBelongTo(records: seq<ImageRecord>, firstId: nat, id: Id)
    requires forall i :: 0 <= i < |records| ==> records[i].painting_id == id
    ensures forall i :: 0 <= i < |StoredAll(records, firstId)| ==> StoredAll(records, firstId)[i].painting_id == id
  {
  }

  /**
   * `createPainting`: the slug is chosen, the files are uploaded, the painting row is
   * inserted, then its image rows. If the image rows cannot be written the new painting
   * row is deleted again (a failure of that delete is not reported); uploaded files are
   * never removed. `remote` is the store's slug suggestion, `urls` the uploaded files,
   * `row` the inserted painting and `added` the image rows written.
   */
  method CreatePainting(store: CatalogStore, w: RowWrite, images: seq<ImageFile>)
    returns (err: Option<SaveError>, ghost remote: Option<string>, ghost urls: seq<Url>,
             ghost row: Option<Painting>, ghost added: seq<PaintingImage>)
    requires store.Valid()
    modifies store
    ensures store.Valid()
    ensures store.blobs == old(store.blobs) + UrlSet(urls)
    ensures err == Some(UploadFailed) || err == Some(PaintingWriteFailed) ==>
      store.paintings == old(store.paintings) && store.images == old(store.images)
    ensures err == Some(ImagesWriteFailed) ==>
      && row.Some? && store.images == old(store.images)
      && (store.paintings == old(store.paintings) || store.paintings == old(store.paintings) + [row.value])
    ensures err.None? ==>
      && row.Some?
      && row.value.id !in PaintingIds(old(store.paintings))
      && Holds(row.value, w)
      && (w.sendsExtras ==> FieldsOf(row.value) == w.fields)
      && row.value.slug == ResolveSlug(remote, w.fields.title)
      && store.paintings == old(store.paintings) + [row.value]
      && store.images == old(store.images) + added
      && |urls| == |ToUpload(images)|
      && RecordsOf(added) == CreateRecords(row.value.id, UploadedFrom(ToUpload(images), urls))
      && ImagesOf(store.images, row.value.id) == added
  {
    row, added := None, [];
    var suggestion := store.GenerateUniqueSlug(w.fields.title);
    remote := suggestion;
    var slug := ResolveSlug(suggestion, w.fields.title);
    var uploaded;
    uploaded, urls := UploadImages(store, ToUpload(images));
    ToUploadIdempotent(images);
    if uploaded.None? {
      return Some(UploadFailed), remote, urls, row, added;
    }
    var inserted := store.InsertPainting(w, slug);
    row := inserted;
    if inserted.None? {
      return Some(PaintingWriteFailed), remote, urls, row, added;
    }
    var painting := inserted.value;
    FreshIdHasNoImages(old(store.paintings), store.images, painting.id);
    var records := CreateRecords(painting.id, uploaded.value);
    var firstId := store.nextId;
    var ok := store.InsertImages(records);
    if !ok {
      WithoutFreshRow(old(store.paintings), painting);
      var _ := store.DeletePainting(painting.id);
      return Some(ImagesWriteFailed), remote, urls, row, added;
    }
    added := StoredAll(records, firstId);
    RecordsRoundTrip(records, firstId);
    StoredBelongTo(records, firstId, painting.id);
    ImagesOfRebuilt(old(store.images), painting.id, added);
    return None, remote, urls, row, added;
  }

  /**
   * `updatePainting`: the painting's columns are written first, and a failure there ends
   * the save before any image or file is touched. Then the stored images the user
   * removed have their files removed, the new files are uploaded, all the painting's
   * image rows are deleted and the rebuilt set is inserted. The results of reading the
   * original rows, of removing files and of deleting the old rows are not checked.
   * `removed` is the set of file URLs removed, `cleared` whether the old rows were deleted.
   */
  method UpdatePainting(store: CatalogStore, id: Id, w: RowWrite, images: seq<ImageFile>)
    returns (err: Option<SaveError>, ghost urls: seq<Url>, ghost removed: set<Url>,
             ghost cleared: bool, ghost added: seq<PaintingImage>)
    requires store.Valid()
    modifies store
    ensures store.Valid()
    ensures err == Some(PaintingWriteFailed) ==>
      store.paintings == old(store.paintings) && store.images == old(store.images) && store.blobs == old(store.blobs)
    ensures err != Some(PaintingWriteFailed) ==>
      && store.paintings == SetFields(old(store.paintings), id, w)
      && store.blobs == (old(store.blobs) - removed) + UrlSet(urls)
      && (removed == {} || removed == UrlSet(UrlsOf(ToDelete(ImagesOf(old(store.images), id), ToKeep(images)))))
    ensures err == Some(UploadFailed) ==> store.images == old(store.images)
    ensures err == Some(ImagesWriteFailed) ==>
      store.images == if cleared then OtherImages(old(store.images), id) else old(store.images)
    ensures err.None? ==>
      && store.images == (if cleared then OtherImages(old(store.images), id) else old(store.images)) + added
      && |urls| == |ToUpload(images)|
      && RecordsOf(added) == UpdateRecords(id, ToKeep(images), UploadedFrom(ToUpload(images), urls))
      && (cleared ==> ImagesOf(store.images, id) == added)
  {
    urls, removed, cleared, added := [], {}, false, [];
    var ok := store.UpdateFields(id, w);
    if !ok {
      return Some(PaintingWriteFailed), urls, removed, cleared, added;
    }
    var toUpload := ToUpload(images);
    var toKeep := ToKeep(images);
    removed := RemoveDeletedFiles(store, id, toKeep);
    var uploaded;
    uploaded, urls := UploadImages(store, toUpload);
    ToUploadIdempotent(images);
    if uploaded.None? {
      return Some(UploadFailed), urls, removed, cleared, added;
    }
    var records := UpdateRecords(id, toKeep, uploaded.value);
    ok, cleared, added := ReplaceImages(store, id, records);
    if !ok {
      return Some(ImagesWriteFailed), urls, removed, cleared, added;
    }
    return None, urls, removed, cleared, added;
  }

  /**
   * The files of the stored images no kept entry refers to are removed; a failed read of
   * the stored rows counts as none, and a failed removal is not reported.
   */
  method RemoveDeletedFiles(store: CatalogStore, id: Id, toKeep: seq<ImageFile>) returns (ghost removed: set<Url>)
    requires store.Valid()
    modifies store
    ensures store.Valid()
    ensures removed == {} || removed == UrlSet(UrlsOf(ToDelete(ImagesOf(old(store.images), id), toKeep)))
    ensures store.blobs == old(store.blobs) - removed
    ensures store.paintings == old(store.paintings) && store.images == old(store.images)
    ensures store.nextId == old(store.nextId)
  {
    removed := {};
    var originals := store.SelectImages(id);
    var toDelete := ToDelete(originals.GetOr([]), toKeep);
    if |toDelete| > 0 {
      var done := store.RemoveBlobs(UrlsOf(toDelete));
      if done {
        removed := UrlSet(UrlsOf(toDelete));
      }
    }
  }

  /**
   * The painting's image rows are deleted (the outcome is not checked) and `records`
   * inserted. `cleared` is whether the delete succeeded, `added` the rows inserted.
   */
  method ReplaceImages(store: CatalogStore, id: Id, records: seq<ImageRecord>)
    returns (ok: bool, ghost cleared: bool, ghost added: seq<PaintingImage>)
    requires store.Valid()
    requires forall i :: 0 <= i < |records| ==> records[i].painting_id == id
    modifies store
    ensures store.Valid()
    ensures store.images == (if cleared then OtherImages(old(store.images), id) else old(store.images)) + added
    ensures ok ==> RecordsOf(added) == records
    ensures !ok ==> added == []
    ensures ok && cleared ==> ImagesOf(store.images, id) == added
    ensures store.paintings == old(store.paintings) && store.blobs == old(store.blobs)
  {
    var done := store.DeleteImagesOf(id);
    cleared := done;
    var firstId := store.nextId;
    ok := store.InsertImages(records);
    if !ok {
      added := [];
      return;
    }
    added := StoredAll(records, firstId);
    RecordsRoundTrip(records, firstId);
    StoredBelongTo(records, firstId, id);
    ImagesOfRebuilt(old(store.images), id, added);
  }

  /** What a submit of the form led to. */
  datatype SubmitOutcome = FormRejected | ImagesRejected(imageError: ImageError) | Saved | SaveFailed(saveError: SaveError)

  /**
   * The body the save sends for parsed form data. The schema's output has no medium and
   * no frame flag, so those two keys are `undefined` and left out of the request.
   */
  function WriteOf(d: PaintingFormData): (r: RowWrite)
    ensures !r.sendsExtras
    ensures && r.fields.title == d.title && r.fields.height_cm == d.height_cm
            && r.fields.width_cm == d.width_cm && r.fields.description == d.description
            && r.fields.price_zar == d.price_zar && r.fields.status == d.status
  {
    RowWrite(PaintingFields(d.title, d.height_cm, d.width_cm, d.description, d.price_zar, d.status,
                            None, None), false)
  }

  /** The body the save sends for submitted values, or none when the schema rejects them. */
  function SubmittedWrite(values: FormValues): (r: Option<RowWrite>)
    ensures r.Some? <==> SchemaAccepts(values)
    ensures r.Some? ==> !r.value.sendsExtras && ParseForm(values) == Some(PaintingFormData(
              r.value.fields.title, r.value.fields.height_cm, r.value.fields.width_cm,
              r.value.fields.description, r.value.fields.price_zar, r.value.fields.status))
  {
    match ParseForm(values)
    case None => None
    case Some(d) => Some(WriteOf(d))
  }

  /** The body a save that keeps the medium and frame flag would send. */
  function CorrectedSubmittedWrite(values: FormValues): (r: Option<RowWrite>)
    ensures r.Some? <==> SchemaAccepts(values)
    ensures r.Some? ==>
      && r.value.sendsExtras
      && Some(r.value.fields) == ParseFormFields(values)
      && r.value.fields.medium_type == values.medium_type
      && r.value.fields.frame_included == values.frame_included
  {
    match ParseFormFields(values)
    case None => None
    case Some(f) => Some(RowWrite(f, true))
  }

  /**
   * The submit gate for a body `write` (none when the form resolver rejected the values):
   * an image set that breaks a rule is refused, and otherwise the painting being edited
   * is updated or a new one created. Nothing is written unless both checks pass.
   */
  method Submit(store: CatalogStore, editing: Option<Painting>, write: Option<RowWrite>, images: seq<ImageFile>)
    returns (outcome: SubmitOutcome)
    requires store.Valid()
    modifies store
    ensures store.Valid()
    ensures write.None? ==> outcome == FormRejected
    ensures write.Some? && ValidateImages(images).Some? ==>
      outcome == ImagesRejected(ValidateImages(images).value)
    ensures outcome.FormRejected? || outcome.ImagesRejected? ==>
      store.paintings == old(store.paintings) && store.images == old(store.images) && store.blobs == old(store.blobs)
    ensures outcome.Saved? ==> write.Some? && ValidateImages(images).None?
    ensures outcome.Saved? && editing.Some? ==>
      store.paintings == SetFields(old(store.paintings), editing.value.id, write.value)
    ensures outcome.Saved? && editing.None? ==>
      && |store.paintings| == |old(store.paintings)| + 1
      && store.paintings[..|old(store.paintings)|] == old(store.paintings)
      && Holds(store.paintings[|old(store.paintings)|], write.value)
      && (write.value.sendsExtras ==> FieldsOf(store.paintings[|old(store.paintings)|]) == write.value.fields)
  {
    if write.None? {
      return FormRejected;
    }
    var imageError := ValidateImages(images);
    if imageError.Some? {
      return ImagesRejected(imageError.value);
    }
    var err: Option<SaveError>;
    ghost var urls, removed, cleared, added, remote, row;
    if editing.Some? {
      err, urls, removed, cleared, added := UpdatePainting(store, editing.value.id, write.value, images);
    } else {
      err, remote, urls, row, added := CreatePainting(store, write.value, images);
      if err.None? {
        assert store.paintings == old(store.paintings) + [row.value];
      }
    }
    outcome := if err.None? then Saved else SaveFailed(err.value);
  }

  /**
   * `onSubmit` as written: the handler receives the values as the schema parsed them, so
   * the medium and frame flag the user entered are never sent. An edit keeps the row's
   * old medium and frame; a new painting gets the column defaults for both.
   */
  method OnSubmit(store: CatalogStore, editing: Option<Painting>, values: FormValues, images: seq<ImageFile>)
    returns (outcome: SubmitOutcome)
    requires store.Valid()
    modifies store
    ensures store.Valid()
    ensures !SchemaAccepts(values) ==> outcome == FormRejected
    ensures SchemaAccepts(values) && ValidateImages(images).Some? ==>
      outcome == ImagesRejected(ValidateImages(images).value)
    ensures outcome.FormRejected? || outcome.ImagesRejected? ==>
      store.paintings == old(store.paintings) && store.images == old(store.images) && store.blobs == old(store.blobs)
    ensures outcome.Saved? ==> SchemaAccepts(values) && ValidateImages(images).None?
    ensures outcome.Saved? && editing.Some? ==>
      && store.paintings == SetFields(old(store.paintings), editing.value.id, SubmittedWrite(values).value)
      && forall i :: 0 <= i < |store.paintings| ==>
           && store.paintings[i].medium_type == old(store.paintings)[i].medium_type
           && store.paintings[i].frame_included == old(store.paintings)[i].frame_included
    ensures outcome.Saved? && editing.None? ==>
      && |store.paintings| == |old(store.paintings)| + 1
      && store.paintings[..|old(store.paintings)|] == old(store.paintings)
      && Holds(store.paintings[|old(store.paintings)|], SubmittedWrite(values).value)
  {
    outcome := Submit(store, editing, SubmittedWrite(values), images);
    if outcome.Saved? && editing.Some? {
      SetFieldsSpec(old(store.paintings), editing.value.id, SubmittedWrite(values).value);
    }
  }

  /**
   * The save as the form evidently intends it: the medium and frame flag the user entered
   * are written along with the schema's fields.
   */
  method OnSubmitCorrected(store: CatalogStore, editing: Option<Painting>, values: FormValues, images: seq<ImageFile>)
    returns (outcome: SubmitOutcome)
    requires store.Valid()
    modifies store
    ensures store.Valid()
    ensures ParseFormFields(values).None? ==> outcome == FormRejected
    ensures ParseFormFields(values).Some? && ValidateImages(images).Some? ==>
      outcome == ImagesRejected(ValidateImages(images).value)
    ensures outcome.FormRejected? || outcome.ImagesRejected? ==>
      store.paintings == old(store.paintings) && store.images == old(store.images) && store.blobs == old(store.blobs)
    ensures outcome.Saved? ==> ParseFormFields(values).Some? && ValidateImages(images).None?
    ensures outcome.Saved? && editing.Some? ==>
      store.paintings == SetFields(old(store.paintings), editing.value.id, RowWrite(ParseFormFields(values).value, true))
    ensures outcome.Saved? && editing.None? ==>
      && |store.paintings| == |old(store.paintings)| + 1
      && store.paintings[..|old(store.paintings)|] == old(store.paintings)
      && FieldsOf(store.paintings[|old(store.paintings)|]) == ParseFormFields(values).value
  {
    outcome := Submit(store, editing, CorrectedSubmittedWrite(values), images);
  }
}
