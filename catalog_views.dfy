/**
 * The two list reads of the catalog: the public gallery and the admin list. Each reads
 * the paintings with their image rows joined, ordered by `sort_index` ascending and then
 * `created_at` descending (the public one keeping only available and sold paintings), and
 * then derives for every painting its primary image, its secondary image and its images
 * in position order.
 */
module CatalogViews {
  import opened Optional
  import opened Seqs
  import opened Sorting
  import opened Types
  import opened Store

  /** The comparator `a.position - b.position`. */
  function PositionKey(img: PaintingImage): SortKey { SortKey(img.position, 0) }

  /** `order('sort_index', asc).order('created_at', desc)`. */
  function ListingKey(p: Painting): SortKey { SortKey(p.sort_index, -p.created_at) }

  /** The rows a read returns: each painting with its image rows, as the join selects them. */
  function Join(rows: seq<Painting>, images: seq<PaintingImage>): (r: seq<Painting>)
    ensures |r| == |rows|
    ensures forall i :: 0 <= i < |r| ==>
      r[i].(painting_images := rows[i].painting_images) == rows[i] && r[i].painting_images == ImagesOf(images, rows[i].id)
  {
    seq(|rows|, i requires 0 <= i < |rows| => rows[i].(painting_images := ImagesOf(images, rows[i].id)))
  }

  /**
   * Each row of a read is its painting with nothing changed but `painting_images`, which
   * holds exactly the image rows that reference that painting, and only image rows.
   */
  lemma JoinSpec(rows: seq<Painting>, images: seq<PaintingImage>)
    ensures var r := Join(rows, images);
      && |r| == |rows|
      && (forall i :: 0 <= i < |r| ==> r[i].(painting_images := rows[i].painting_images) == rows[i])
      && (forall i, j :: 0 <= i < |r| && 0 <= j < |images| ==>
            (images[j] in r[i].painting_images <==> images[j].painting_id == rows[i].id))
      && (forall i, k :: 0 <= i < |r| && 0 <= k < |r[i].painting_images| ==>
            r[i].painting_images[k] in images)
  {
    var r := Join(rows, images);
    forall i | 0 <= i < |r|
      ensures forall j :: 0 <= j < |images| ==>
        (images[j] in r[i].painting_images <==> images[j].painting_id == rows[i].id)
      ensures forall k :: 0 <= k < |r[i].painting_images| ==> r[i].painting_images[k] in images
    {
      var own := ImagesOf(images, rows[i].id);
      FilterMembers(images, BelongsTo(rows[i].id));
      forall j | 0 <= j < |images| && images[j] in own ensures images[j].painting_id == rows[i].id {
        var k :| 0 <= k < |own| && own[k] == images[j];
      }
    }
  }

  /**
   * The per-painting `map` of both reads. `primary_image` and `secondary_image` are
   * looked up before the images are sorted; the sort works in place on the joined array,
   * which `painting_images` still refers to, so both fields end up holding the sorted list.
   */
  function Annotate(p: Painting): Painting {
    var sorted := SortBy(p.painting_images, PositionKey);
    p.(primary_image := Find(p.painting_images, IsPrimaryImage),
       secondary_image := Find(p.painting_images, IsSecondaryImage),
       painting_images := sorted,
       all_images := Some(sorted))
  }

  predicate IsListed(p: Painting) { p.status == Available || p.status == Sold }

  /** `usePaintings`: available and sold paintings only. */
  function PublicView(rows: seq<Painting>): seq<Painting> {
    MapSeq(SortBy(Filter(rows, IsListed), ListingKey), Annotate)
  }

  /** `useAdminPaintings`: every painting. */
  function AdminView(rows: seq<Painting>): seq<Painting> {
    MapSeq(SortBy(rows, ListingKey), Annotate)
  }

  /**
   * The primary (secondary) image is the first image flagged primary (secondary) in the
   * order the join returned them, or none; `all_images` holds every image of the painting,
   * ordered by position, images at the same position staying in join order; the
   * painting's own columns are untouched.
   */
  lemma AnnotateSpec(p: Painting)
    ensures var r := Annotate(p);
      && r.primary_image == (if Filter(p.painting_images, IsPrimaryImage) == [] then None
                             else Some(Filter(p.painting_images, IsPrimaryImage)[0]))
      && r.secondary_image == (if Filter(p.painting_images, IsSecondaryImage) == [] then None
                               else Some(Filter(p.painting_images, IsSecondaryImage)[0]))
      && r.all_images.Some?
      && multiset(r.all_images.value) == multiset(p.painting_images)
      && SortedBy(r.all_images.value, PositionKey)
      && (forall k :: Filter(r.all_images.value, HasKey(PositionKey, k))
                      == Filter(p.painting_images, HasKey(PositionKey, k)))
      && r.painting_images == r.all_images.value
      && r.(painting_images := p.painting_images, primary_image := p.primary_image,
            secondary_image := p.secondary_image, all_images := p.all_images) == p
  {
    FindIsFirstOfFilter(p.painting_images, IsPrimaryImage);
    FindIsFirstOfFilter(p.painting_images, IsSecondaryImage);
    forall k {
      SortByStable(p.painting_images, PositionKey, k);
    }
  }

  /** Annotating keeps what the reads order and filter by. */
  lemma AnnotateAllKeepsListing(s: seq<Painting>)
    ensures forall i :: 0 <= i < |s| ==>
      ListingKey(MapSeq(s, Annotate)[i]) == ListingKey(s[i]) && MapSeq(s, Annotate)[i].status == s[i].status
    ensures SortedBy(s, ListingKey) ==> SortedBy(MapSeq(s, Annotate), ListingKey)
  {
    var m := MapSeq(s, Annotate);
    if SortedBy(s, ListingKey) {
      forall i, j | 0 <= i < j < |m| ensures KeyLe(ListingKey(m[i]), ListingKey(m[j])) {
        assert m[i] == Annotate(s[i]) && m[j] == Annotate(s[j]);
      }
    }
  }

  /**
   * The public gallery lists exactly the available and sold paintings, each once and
   * annotated, ordered by `sort_index` and then newest first.
   */
  lemma PublicViewSpec(rows: seq<Painting>)
    ensures var v := PublicView(rows);
      && (forall i :: 0 <= i < |v| ==> IsListed(v[i]))
      && SortedBy(v, ListingKey)
      && multiset(v) == multiset(MapSeq(Filter(rows, IsListed), Annotate))
      && |v| == |Filter(rows, IsListed)|
  {
    var listed := Filter(rows, IsListed);
    var sorted := SortBy(listed, ListingKey);
    var v := MapSeq(sorted, Annotate);
    AnnotateAllKeepsListing(sorted);
    MapMultiset(sorted, listed, Annotate);
    forall i | 0 <= i < |v| ensures IsListed(v[i]) {
      assert sorted[i] in multiset(listed);
      ListedMember(rows, sorted[i]);
    }
  }

  lemma ListedMember(rows: seq<Painting>, p: Painting)
    requires p in Filter(rows, IsListed)
    ensures IsListed(p)
  {
    FilterMembers(rows, IsListed);
  }

  /** The admin list shows every painting once, annotated, in the same order. */
  lemma AdminViewSpec(rows: seq<Painting>)
    ensures var v := AdminView(rows);
      && SortedBy(v, ListingKey)
      && multiset(v) == multiset(MapSeq(rows, Annotate))
      && |v| == |rows|
  {
    AnnotateAllKeepsListing(SortBy(rows, ListingKey));
    MapMultiset(SortBy(rows, ListingKey), rows, Annotate);
  }
}
