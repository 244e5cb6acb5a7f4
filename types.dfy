/**
 * The catalog's records: a painting, one of its stored images, and an entry of the
 * image editor's working set.
 */
module Types {
  import opened Optional

  /** Record identifiers (UUIDs in the store), abstracted to naturals. */
  type Id = nat

  /** The public location of a stored image blob. */
  type Url = string

  datatype Status = Available | Sold | Hidden

  /** One stored image of a painting. */
  datatype PaintingImage = PaintingImage(
    id: Id,
    painting_id: Id,
    image_url: Url,
    alt: Option<string>,
    is_primary: bool,
    is_secondary: bool,
    position: int)

  predicate IsPrimaryImage(img: PaintingImage) { img.is_primary }
  predicate IsSecondaryImage(img: PaintingImage) { img.is_secondary }

  /**
   * A painting record. `painting_images` is filled by the join of a read; `primary_image`,
   * `secondary_image` and `all_images` are derived by the read projections and are absent
   * in the store. Measurements and price are abstracted to reals; timestamps to integers.
   */
  datatype Painting = Painting(
    id: Id,
    title: string,
    height_cm: Option<real>,
    width_cm: Option<real>,
    description: Option<string>,
    price_zar: Option<real>,
    status: Status,
    slug: string,
    sort_index: int,
    created_at: int,
    updated_at: int,
    medium_type: Option<string>,
    frame_included: Option<bool>,
    painting_images: seq<PaintingImage>,
    primary_image: Option<PaintingImage>,
    secondary_image: Option<PaintingImage>,
    all_images: Option<seq<PaintingImage>>)

  /** A file picked or dropped by the user: only its name and MIME type matter here. */
  datatype File = File(name: string, mime_type: string)

  /**
   * An entry of the image editor's working set: a pending upload carries a `file`,
   * an image already stored carries its `id` and `image_url`.
   */
  datatype ImageFile = ImageFile(
    id: Option<Id>,
    file: Option<File>,
    is_primary: bool,
    is_secondary: bool,
    alt: string,
    position: int,
    image_url: Option<Url>)

  /**
   * The scalar columns a save writes: the form's fields once the schema has accepted them.
   */
  datatype PaintingFields = PaintingFields(
    title: string,
    height_cm: Option<real>,
    width_cm: Option<real>,
    description: Option<string>,
    price_zar: Option<real>,
    status: Status,
    medium_type: Option<string>,
    frame_included: Option<bool>)
}
