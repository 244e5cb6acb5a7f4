/**
 * The hosted back end the catalog talks to, reduced to what the catalog relies on: a
 * `paintings` table, a `painting_images` table whose rows reference a painting and are
 * deleted with it, and a bucket of image files addressed by their public URL. Every call
 * may fail; which calls fail is not under the caller's control, so each operation chooses
 * its outcome nondeterministically and reports it.
 */
module Store {
  import opened Optional
  import opened Seqs
  import opened Types

  /** A row for `painting_images` as the catalog inserts it: the store assigns the id. */
  datatype ImageRecord = ImageRecord(
    painting_id: Id,
    image_url: Url,
    alt: string,
    is_primary: bool,
    is_secondary: bool,
    position: int)

  /** The image row as the catalog wrote it, without the id the store assigned. */
  function RecordOf(img: PaintingImage): ImageRecord {
    ImageRecord(img.painting_id, img.image_url, img.alt.GetOr(""), img.is_primary,
                img.is_secondary, img.position)
  }

  function RecordsOf(images: seq<PaintingImage>): (r: seq<ImageRecord>)
    ensures |r| == |images|
  {
    seq(|images|, i requires 0 <= i < |images| => RecordOf(images[i]))
  }

  /**
   * The row kept for `record` once the store has given it identifier `id`: reading it
   * back gives that id and, without the id, the record as written; its alt text is set.
   */
  function Stored(record: ImageRecord, id: Id): (r: PaintingImage)
    ensures r.id == id && RecordOf(r) == record && r.alt.Some?
  {
    PaintingImage(id, record.painting_id, record.image_url, Some(record.alt),
                  record.is_primary, record.is_secondary, record.position)
  }

  /** The rows kept for `records` inserted together, numbered from `firstId`. */
  function StoredAll(records: seq<ImageRecord>, firstId: nat): (r: seq<PaintingImage>)
    ensures |r| == |records|
  {
    seq(|records|, i requires 0 <= i < |records| => Stored(records[i], firstId + i))
  }

  /**
   * The body of an insert or update of a painting row. The six schema columns are always
   * sent; the medium and frame keys only when `sendsExtras` holds, since a key whose value
   * is `undefined` is left out of the request. A column whose key is left out keeps its
   * value on an update and takes the column default on an insert.
   */
  datatype RowWrite = RowWrite(fields: PaintingFields, sendsExtras: bool)

  /** Row `p` with the columns `w` sends set. */
  function Applied(p: Painting, w: RowWrite): Painting {
    var f := w.fields;
    p.(title := f.title, height_cm := f.height_cm, width_cm := f.width_cm,
       description := f.description, price_zar := f.price_zar, status := f.status,
       medium_type := if w.sendsExtras then f.medium_type else p.medium_type,
       frame_included := if w.sendsExtras then f.frame_included else p.frame_included)
  }

  /**
   * The new row an insert of `w` and `slug` creates, with the id, sort position,
   * timestamps and column defaults the store chose.
   */
  function NewRow(id: Id, w: RowWrite, slug: string, sort_index: int, created_at: int,
                  medium_default: Option<string>, frame_default: Option<bool>): Painting {
    var blank := Painting(id, "", None, None, None, None, Available, slug, sort_index, created_at,
                          created_at, medium_default, frame_default, [], None, None, None);
    Applied(blank, w)
  }

  /** The scalar columns of a painting, as the form writes them. */
  function FieldsOf(p: Painting): PaintingFields {
    PaintingFields(p.title, p.height_cm, p.width_cm, p.description, p.price_zar, p.status,
                   p.medium_type, p.frame_included)
  }

  /** Row `p` holds every value `w` sends. */
  predicate Holds(p: Painting, w: RowWrite) {
    && p.title == w.fields.title && p.height_cm == w.fields.height_cm
    && p.width_cm == w.fields.width_cm && p.description == w.fields.description
    && p.price_zar == w.fields.price_zar && p.status == w.fields.status
    && (w.sendsExtras ==> p.medium_type == w.fields.medium_type
                          && p.frame_included == w.fields.frame_included)
  }

  function PaintingIds(rows: seq<Painting>): set<Id> {
    set i | 0 <= i < |rows| :: rows[i].id
  }

  predicate DistinctIds(rows: seq<Painting>) {
    forall i, j :: 0 <= i < |rows| && 0 <= j < |rows| && rows[i].id == rows[j].id ==> i == j
  }

  function BelongsTo(id: Id): PaintingImage -> bool {
    (img: PaintingImage) => img.painting_id == id
  }

  function BelongsElsewhere(id: Id): PaintingImage -> bool {
    (img: PaintingImage) => img.painting_id != id
  }

  function IsOtherPainting(id: Id): Painting -> bool {
    (p: Painting) => p.id != id
  }

  /** `.eq('painting_id', id)` on the images table. */
  function ImagesOf(images: seq<PaintingImage>, id: Id): seq<PaintingImage> {
    Filter(images, BelongsTo(id))
  }

  /** The image rows left when those of painting `id` are deleted. */
  function OtherImages(images: seq<PaintingImage>, id: Id): seq<PaintingImage> {
    Filter(images, BelongsElsewhere(id))
  }

  /** The painting rows left when painting `id` is deleted. */
  function WithoutPainting(rows: seq<Painting>, id: Id): seq<Painting> {
    Filter(rows, IsOtherPainting(id))
  }

  function UrlsOf(images: seq<PaintingImage>): seq<Url> {
    MapSeq(images, (img: PaintingImage) => img.image_url)
  }

  function UrlSet(urls: seq<Url>): set<Url> {
    set i | 0 <= i < |urls| :: urls[i]
  }

  /** `.update({ status }).eq('id', id)`. */
  function SetStatus(rows: seq<Painting>, id: Id, status: Status): seq<Painting> {
    seq(|rows|, i requires 0 <= i < |rows| => if rows[i].id == id then rows[i].(status := status) else rows[i])
  }

  /** `.update({ sort_index }).eq('id', id)`. */
  function SetSortIndex(rows: seq<Painting>, id: Id, sort_index: int): seq<Painting> {
    seq(|rows|, i requires 0 <= i < |rows| => if rows[i].id == id then rows[i].(sort_index := sort_index) else rows[i])
  }

  /** `.update({ title, ..., frame_included }).eq('id', id)`. */
  function SetFields(rows: seq<Painting>, id: Id, w: RowWrite): seq<Painting> {
    seq(|rows|, i requires 0 <= i < |rows| => if rows[i].id == id then Applied(rows[i], w) else rows[i])
  }

  /**
   * An update by id touches at most the row with that id: that row then holds what the
   * update sends, keeps the medium and frame when those keys are left out, and keeps
   * every column the form does not write.
   */
  lemma SetFieldsSpec(rows: seq<Painting>, id: Id, w: RowWrite)
    ensures var r := SetFields(rows, id, w);
      && |r| == |rows|
      && (forall i :: 0 <= i < |r| && rows[i].id == id ==> Holds(r[i], w))
      && (forall i :: 0 <= i < |r| && rows[i].id == id && w.sendsExtras ==> FieldsOf(r[i]) == w.fields)
      && (forall i :: 0 <= i < |r| && !w.sendsExtras ==>
            r[i].medium_type == rows[i].medium_type && r[i].frame_included == rows[i].frame_included)
      && (forall i :: 0 <= i < |r| && rows[i].id != id ==> r[i] == rows[i])
      && (forall i :: 0 <= i < |r| ==> r[i].(title := rows[i].title, height_cm := rows[i].height_cm,
            width_cm := rows[i].width_cm, description := rows[i].description,
            price_zar := rows[i].price_zar, status := rows[i].status,
            medium_type := rows[i].medium_type, frame_included := rows[i].frame_included) == rows[i])
  {
  }

  /** Updates by id keep every row's identifier. */
  lemma SameIds(a: seq<Painting>, b: seq<Painting>)
    requires |a| == |b| && forall i :: 0 <= i < |a| ==> a[i].id == b[i].id
    ensures PaintingIds(a) == PaintingIds(b)
    ensures DistinctIds(a) ==> DistinctIds(b)
  {
    forall x | x in PaintingIds(a) ensures x in PaintingIds(b) {
      var i :| 0 <= i < |a| && a[i].id == x;
      assert b[i].id == x;
    }
    forall x | x in PaintingIds(b) ensures x in PaintingIds(a) {
      var i :| 0 <= i < |b| && b[i].id == x;
      assert a[i].id == x;
    }
  }

  lemma IdsOfConcat(a: seq<Painting>, b: seq<Painting>)
    ensures PaintingIds(a + b) == PaintingIds(a) + PaintingIds(b)
  {
    forall x | x in PaintingIds(a + b) ensures x in PaintingIds(a) + PaintingIds(b) {
      var i :| 0 <= i < |a + b| && (a + b)[i].id == x;
      if i < |a| { assert a[i].id == x; } else { assert b[i - |a|].id == x; }
    }
    forall x | x in PaintingIds(a) ensures x in PaintingIds(a + b) {
      var i :| 0 <= i < |a| && a[i].id == x;
      assert (a + b)[i].id == x;
    }
    forall x | x in PaintingIds(b) ensures x in PaintingIds(a + b) {
      var i :| 0 <= i < |b| && b[i].id == x;
      assert (a + b)[|a| + i].id == x;
    }
  }

  lemma IdsOfSingleton(p: Painting)
    ensures PaintingIds([p]) == {p.id}
  {
    assert [p][0].id == p.id;
  }

  /** What the cascade leaves: image rows of other paintings only. */
  lemma OtherImagesMembers(images: seq<PaintingImage>, id: Id)
    ensures forall i :: 0 <= i < |OtherImages(images, id)| ==>
      OtherImages(images, id)[i] in images && OtherImages(images, id)[i].painting_id != id
  {
    FilterMembers(images, BelongsElsewhere(id));
  }

  /** Deleting painting `id` keeps the other rows, with distinct ids, and drops `id`. */
  lemma {:induction false} WithoutPaintingIds(rows: seq<Painting>, id: Id)
    requires DistinctIds(rows)
    ensures DistinctIds(WithoutPainting(rows, id))
    ensures PaintingIds(WithoutPainting(rows, id)) == PaintingIds(rows) - {id}
  {
    if rows != [] {
      var rest := WithoutPainting(rows[1..], id);
      assert rows == [rows[0]] + rows[1..];
      IdsOfConcat([rows[0]], rows[1..]);
      IdsOfSingleton(rows[0]);
      assert DistinctIds(rows[1..]) by {
        forall i, j | 0 <= i < |rows[1..]| && 0 <= j < |rows[1..]| && rows[1..][i].id == rows[1..][j].id
          ensures i == j
        {
          assert rows[i + 1].id == rows[j + 1].id;
        }
      }
      WithoutPaintingIds(rows[1..], id);
      if rows[0].id != id {
        var r := [rows[0]] + rest;
        assert WithoutPainting(rows, id) == r;
        forall i | 0 <= i < |rows[1..]| ensures rows[1..][i].id != rows[0].id {
          assert rows[1..][i] == rows[i + 1];
        }
        IdsOfConcat([rows[0]], rest);
        forall i, j | 0 <= i < j < |r| ensures r[i].id != r[j].id {
          assert r[j] == rest[j - 1];
          if i == 0 {
            assert rest[j - 1].id in PaintingIds(rest);
          } else {
            assert r[i] == rest[i - 1];
          }
        }
      } else {
        assert WithoutPainting(rows, id) == rest;
      }
    }
  }

  class CatalogStore {
    var paintings: seq<Painting>
    var images: seq<PaintingImage>
    var blobs: set<Url>
    /** Identifiers below this one have been handed out. */
    var nextId: nat

    /**
     * Painting ids are unique, every identifier in use was handed out, and every image
     * row references an existing painting.
     */
    ghost predicate Valid()
      reads this
    {
      && DistinctIds(paintings)
      && (forall x :: x in PaintingIds(paintings) ==> x < nextId)
      && (forall i :: 0 <= i < |images| ==> images[i].id < nextId)
      && (forall i :: 0 <= i < |images| ==> images[i].painting_id in PaintingIds(paintings))
    }

    constructor ()
      ensures Valid() && paintings == [] && images == [] && blobs == {}
    {
      paintings, images, blobs, nextId := [], [], {}, 0;
    }

    /** `update({ status }).eq('id', id)`. */
    method UpdateStatus(id: Id, status: Status) returns (ok: bool)
      requires Valid()
      modifies this
      ensures Valid()
      ensures paintings == if ok then SetStatus(old(paintings), id, status) else old(paintings)
      ensures images == old(images) && blobs == old(blobs) && nextId == old(nextId)
    {
      ok :| true;
      if ok {
        SameIds(paintings, SetStatus(paintings, id, status));
        paintings := SetStatus(paintings, id, status);
      }
    }

    /** `update({ sort_index }).eq('id', id)`. */
    method UpdateSortIndex(id: Id, sort_index: int) returns (ok: bool)
      requires Valid()
      modifies this
      ensures Valid()
      ensures paintings == if ok then SetSortIndex(old(paintings), id, sort_index) else old(paintings)
      ensures images == old(images) && blobs == old(blobs) && nextId == old(nextId)
    {
      ok :| true;
      if ok {
        SameIds(paintings, SetSortIndex(paintings, id, sort_index));
        paintings := SetSortIndex(paintings, id, sort_index);
      }
    }

    /** `update({ title, ..., frame_included }).eq('id', id)`. */
    method UpdateFields(id: Id, w: RowWrite) returns (ok: bool)
      requires Valid()
      modifies this
      ensures Valid()
      ensures paintings == if ok then SetFields(old(paintings), id, w) else old(paintings)
      ensures images == old(images) && blobs == old(blobs) && nextId == old(nextId)
    {
      ok :| true;
      if ok {
        SameIds(paintings, SetFields(paintings, id, w));
        paintings := SetFields(paintings, id, w);
      }
    }

    /**
     * `insert({...}).select().single()`: on success the new row, with a fresh id and the
     * sort position, timestamps and column defaults the store assigns, is returned.
     */
    method InsertPainting(w: RowWrite, slug: string) returns (r: Option<Painting>)
      requires Valid()
      modifies this
      ensures Valid()
      ensures r.None? ==> paintings == old(paintings) && nextId == old(nextId)
      ensures r.Some? ==>
        && r.value.id !in PaintingIds(old(paintings))
        && Holds(r.value, w) && r.value.slug == slug
        && (w.sendsExtras ==> FieldsOf(r.value) == w.fields)
        && paintings == old(paintings) + [r.value]
        && nextId == old(nextId) + 1
      ensures images == old(images) && blobs == old(blobs)
    {
      var ok: bool :| true;
      if !ok {
        return None;
      }
      var sort_index: int :| true;
      var created_at: int :| true;
      var medium_default: Option<string> :| true;
      var frame_default: Option<bool> :| true;
      var row := NewRow(nextId, w, slug, sort_index, created_at, medium_default, frame_default);
      IdsOfConcat(paintings, [row]);
      IdsOfSingleton(row);
      paintings := paintings + [row];
      nextId := nextId + 1;
      r := Some(row);
    }

    /** `delete().eq('id', id)`: the painting and, by the cascade, its image rows go. */
    method DeletePainting(id: Id) returns (ok: bool)
      requires Valid()
      modifies this
      ensures Valid()
      ensures ok ==> paintings == WithoutPainting(old(paintings), id) && images == OtherImages(old(images), id)
      ensures !ok ==> paintings == old(paintings) && images == old(images)
      ensures blobs == old(blobs) && nextId == old(nextId)
    {
      ok :| true;
      if ok {
        WithoutPaintingIds(paintings, id);
        OtherImagesMembers(images, id);
        var rest := OtherImages(images, id);
        forall i | 0 <= i < |rest|
          ensures rest[i].id < nextId
          ensures rest[i].painting_id in PaintingIds(paintings) - {id}
        {
          var k :| 0 <= k < |images| && images[k] == rest[i];
        }
        paintings := WithoutPainting(paintings, id);
        images := rest;
      }
    }

    /** `from('painting_images').select(...).eq('painting_id', id)`. */
    method SelectImages(id: Id) returns (r: Option<seq<PaintingImage>>)
      ensures r.Some? ==> r.value == ImagesOf(images, id)
    {
      var ok: bool :| true;
      r := if ok then Some(ImagesOf(images, id)) else None;
    }

    /** `from('painting_images').select('image_url').eq('painting_id', id)`. */
    method SelectImageUrls(id: Id) returns (r: Option<seq<Url>>)
      ensures r.Some? ==> r.value == UrlsOf(ImagesOf(images, id))
    {
      var ok: bool :| true;
      r := if ok then Some(UrlsOf(ImagesOf(images, id))) else None;
    }

    /** `delete().eq('painting_id', id)` on the images table. */
    method DeleteImagesOf(id: Id) returns (ok: bool)
      requires Valid()
      modifies this
      ensures Valid()
      ensures images == if ok then OtherImages(old(images), id) else old(images)
      ensures paintings == old(paintings) && blobs == old(blobs) && nextId == old(nextId)
    {
      ok :| true;
      if ok {
        OtherImagesMembers(images, id);
        images := OtherImages(images, id);
      }
    }

    /**
     * `insert(records)`: all rows or none. A record naming a painting that does not exist
     * violates the foreign key and fails the whole insert.
     */
    method InsertImages(records: seq<ImageRecord>) returns (ok: bool)
      requires Valid()
      modifies this
      ensures Valid()
      ensures ok ==> forall i :: 0 <= i < |records| ==> records[i].painting_id in PaintingIds(paintings)
      ensures ok ==> images == old(images) + StoredAll(records, old(nextId)) && nextId == old(nextId) + |records|
      ensures !ok ==> images == old(images) && nextId == old(nextId)
      ensures paintings == old(paintings) && blobs == old(blobs)
    {
      ok :| true;
      if exists i :: 0 <= i < |records| && records[i].painting_id !in PaintingIds(paintings) {
        ok := false;
      }
      if ok {
        images := images + StoredAll(records, nextId);
        nextId := nextId + |records|;
      }
    }

    /**
     * `storage.upload(name, file)` followed by `getPublicUrl(name)`: the store names the
     * file; an upload over an existing file fails.
     */
    method Upload(file: File) returns (r: Option<Url>)
      requires Valid()
      modifies this
      ensures Valid()
      ensures r.Some? ==> r.value !in old(blobs) && blobs == old(blobs) + {r.value}
      ensures r.None? ==> blobs == old(blobs)
      ensures paintings == old(paintings) && images == old(images) && nextId == old(nextId)
    {
      var ok: bool :| true;
      var url: Url :| true;
      if ok && url !in blobs {
        blobs := blobs + {url};
        r := Some(url);
      } else {
        r := None;
      }
    }

    /** `storage.remove(names)`. */
    method RemoveBlobs(urls: seq<Url>) returns (ok: bool)
      requires Valid()
      modifies this
      ensures Valid()
      ensures blobs == if ok then old(blobs) - UrlSet(urls) else old(blobs)
      ensures paintings == old(paintings) && images == old(images) && nextId == old(nextId)
    {
      ok :| true;
      if ok {
        blobs := blobs - UrlSet(urls);
      }
    }

    /** `rpc('generate_unique_slug', { title_text })`: the store's answer, or none on error. */
    method GenerateUniqueSlug(title: string) returns (r: Option<string>)
    {
      var ok: bool :| true;
      var slug: string :| true;
      r := if ok then Some(slug) else None;
    }
  }
}
