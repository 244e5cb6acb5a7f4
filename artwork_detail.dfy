/**
 * The public artwork dialog: the carousel shows the secondary image first, and arrows and
 * dot indicators appear only when there is more than one image.
 */
module ArtworkDetail {
  import opened Optional
  import opened Seqs
  import opened Types

  predicate IsOtherImage(img: PaintingImage) { !img.is_secondary }

  /**
   * `reorderedImages`: the first image flagged secondary, followed by every image that is
   * not flagged secondary; the list unchanged when none is.
   */
  function Reordered(images: seq<PaintingImage>): seq<PaintingImage> {
    if |images| == 0 then []
    else match Find(images, IsSecondaryImage)
      case None => images
      case Some(secondary) => [secondary] + Filter(images, IsOtherImage)
  }

  /** The carousel of an artwork, whose `all_images` may be absent. */
  function CarouselImages(artwork: Painting): seq<PaintingImage> {
    Reordered(artwork.all_images.GetOr([]))
  }

  predicate HasMultipleImages(artwork: Painting) {
    |CarouselImages(artwork)| > 1
  }

  /**
   * The alt text shown for a slide: always the image's own alt text or the artwork's
   * title, the former whenever it is non-empty, and empty only when both are.
   */
  function SlideAlt(image: PaintingImage, title: string): (r: string)
    ensures r == title || Some(r) == image.alt
    ensures image.alt.Some? && image.alt.value != [] ==> r == image.alt.value
    ensures r == [] <==> title == [] && (image.alt.None? || image.alt.value == [])
  {
    match image.alt
    case Some(a) => if a != [] then a else title
    case None => title
  }

  /**
   * Without a secondary image the carousel is the list as stored; with one, it leads with
   * the first secondary image and then lists the other images in stored order, so the
   * further secondary images (if any) are dropped.
   */
  lemma ReorderedSpec(images: seq<PaintingImage>)
    ensures var r := Reordered(images);
      && (!Exists(images, IsSecondaryImage) ==> r == images)
      && (Exists(images, IsSecondaryImage) ==>
            && Filter(images, IsSecondaryImage) != []
            && r == [Filter(images, IsSecondaryImage)[0]] + Filter(images, IsOtherImage)
            && |r| == |images| + 1 - |Filter(images, IsSecondaryImage)|)
  {
    if Exists(images, IsSecondaryImage) {
      FindIsFirstOfFilter(images, IsSecondaryImage);
      FilterSplit(images, IsSecondaryImage, IsOtherImage);
      var k :| 0 <= k < |images| && IsSecondaryImage(images[k]);
      FilterMembers(images, IsSecondaryImage);
      assert images[k] in Filter(images, IsSecondaryImage);
    }
  }

  /** With at most one secondary image the carousel is a rearrangement of all images. */
  lemma ReorderedIsPermutation(images: seq<PaintingImage>)
    requires |Filter(images, IsSecondaryImage)| <= 1
    ensures multiset(Reordered(images)) == multiset(images)
  {
    FilterSplit(images, IsSecondaryImage, IsOtherImage);
    FindIsFirstOfFilter(images, IsSecondaryImage);
    if Filter(images, IsSecondaryImage) == [] {
      FilterMembers(images, IsSecondaryImage);
    } else {
      var f := Filter(images, IsSecondaryImage);
      assert f == [f[0]];
    }
  }

  /** Every slide is one of the artwork's images, and every non-secondary image is a slide. */
  lemma ReorderedMembers(images: seq<PaintingImage>)
    ensures forall i :: 0 <= i < |Reordered(images)| ==> Reordered(images)[i] in images
    ensures forall i :: 0 <= i < |images| && !images[i].is_secondary ==> images[i] in Reordered(images)
  {
    FilterMembers(images, IsOtherImage);
  }

  /** Arrows and indicators appear exactly when the artwork has two or more slides. */
  lemma MultipleImagesIff(artwork: Painting)
    ensures var images := artwork.all_images.GetOr([]);
      HasMultipleImages(artwork) <==>
        if Exists(images, IsSecondaryImage) then |Filter(images, IsOtherImage)| >= 1
        else |images| >= 2
  {
    ReorderedSpec(artwork.all_images.GetOr([]));
  }
}
