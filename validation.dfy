/**
 * The checks a save passes before anything is written: the image-set validator, which
 * reports the first rule an image set breaks, and the schema of the painting form.
 */
module Validation {
  import opened Optional
  import opened Seqs
  import opened JsText
  import opened Types

  const MaxImages := 6

  /** The rules of the image-set validator, in the order they are checked. */
  datatype ImageError = NoImages | TooManyImages | NoPrimary | NoSecondary | PrimaryAltMissing

  function Message(e: ImageError): string {
    match e
    case NoImages => "Please upload at least 1 image"
    case TooManyImages => "Maximum 6 images allowed"
    case NoPrimary => "Please select a primary image by clicking 'Set as Primary'"
    case NoSecondary =>
      "Please select a secondary image by clicking 'Set as Secondary' (this will be shown first in preview)"
    case PrimaryAltMissing => "Please provide alt text for the primary image"
  }

  predicate IsPrimary(img: ImageFile) {
    img.is_primary
  }

  predicate IsSecondary(img: ImageFile) {
    img.is_secondary
  }

  /** `validateImages`: `None` (the source's `null`) when the set may be saved. */
  function ValidateImages(images: seq<ImageFile>): Option<ImageError> {
    if |images| == 0 then Some(NoImages)
    else if |images| > MaxImages then Some(TooManyImages)
    else if |images| > 1 && !Exists(images, IsPrimary) then Some(NoPrimary)
    else if |images| > 1 && !Exists(images, IsSecondary) then Some(NoSecondary)
    else match Find(images, IsPrimary)
      case Some(primary) => if Trim(primary.alt) == [] then Some(PrimaryAltMissing) else None
      case None => None
  }

  /** The alt text of the first primary image is missing (empty or whitespace only). */
  predicate FirstPrimaryAltBlank(images: seq<ImageFile>) {
    match FindIndex(images, IsPrimary)
    case Some(i) => Blank(images[i].alt)
    case None => false
  }

  /**
   * Which error is reported, rule by rule: each rule fires exactly when every earlier rule
   * passed and its own condition holds, and the set is accepted exactly when no rule fires.
   */
  lemma ValidateImagesRules(images: seq<ImageFile>)
    ensures ValidateImages(images) == Some(NoImages) <==> |images| == 0
    ensures ValidateImages(images) == Some(TooManyImages) <==> |images| > 6
    ensures ValidateImages(images) == Some(NoPrimary)
        <==> 1 < |images| <= 6 && forall i :: 0 <= i < |images| ==> !images[i].is_primary
    ensures ValidateImages(images) == Some(NoSecondary)
        <==> 1 < |images| <= 6 && (exists i :: 0 <= i < |images| && images[i].is_primary)
             && forall i :: 0 <= i < |images| ==> !images[i].is_secondary
    ensures ValidateImages(images) == Some(PrimaryAltMissing)
        <==> 1 <= |images| <= 6
             && (|images| > 1 ==> (exists i :: 0 <= i < |images| && images[i].is_primary)
                                  && (exists i :: 0 <= i < |images| && images[i].is_secondary))
             && FirstPrimaryAltBlank(images)
    ensures ValidateImages(images) == None
        <==> 1 <= |images| <= 6
             && (|images| > 1 ==> (exists i :: 0 <= i < |images| && images[i].is_primary)
                                  && (exists i :: 0 <= i < |images| && images[i].is_secondary))
             && !FirstPrimaryAltBlank(images)
  {
    match FindIndex(images, IsPrimary)
    case Some(i) => TrimEmptyIffBlank(images[i].alt);
    case None =>
  }

  /** A single image that is not flagged primary passes without any alt-text check. */
  lemma SingleUnflaggedImagePasses(img: ImageFile)
    requires !img.is_primary
    ensures ValidateImages([img]) == None
  {
  }

  /** A single primary image passes exactly when its alt text is not blank. */
  lemma SinglePrimaryImageNeedsAlt(img: ImageFile)
    requires img.is_primary
    ensures ValidateImages([img]) == None <==> !Blank(img.alt)
  {
    assert FindIndex([img], IsPrimary) == Some(0);
    TrimEmptyIffBlank(img.alt);
  }

  // ---------------------------------------------------------------------------
  // The painting form's schema

  /** The values the painting form holds when it is submitted. */
  datatype FormValues = FormValues(
    title: string,
    height_cm: Option<real>,
    width_cm: Option<real>,
    description: Option<string>,
    price_zar: Option<real>,
    status: string,
    medium_type: Option<string>,
    frame_included: Option<bool>)

  /** The schema's output type: only the six fields the schema declares. */
  datatype PaintingFormData = PaintingFormData(
    title: string,
    height_cm: Option<real>,
    width_cm: Option<real>,
    description: Option<string>,
    price_zar: Option<real>,
    status: Status)

  function StatusName(s: Status): string {
    match s
    case Available => "available"
    case Sold => "sold"
    case Hidden => "hidden"
  }

  /** `z.enum(['available', 'sold', 'hidden'])`. */
  function ParseStatus(name: string): (r: Option<Status>)
    ensures r.Some? ==> StatusName(r.value) == name
  {
    if name == "available" then Some(Available)
    else if name == "sold" then Some(Sold)
    else if name == "hidden" then Some(Hidden)
    else None
  }

  lemma StatusNameRoundTrip(s: Status)
    ensures ParseStatus(StatusName(s)) == Some(s)
  {
  }

  /** `z.number().positive().optional().nullable()`. */
  predicate PositiveOrAbsent(x: Option<real>) {
    x.None? || x.value > 0.0
  }

  /** `paintingSchema` accepts the form values. */
  predicate SchemaAccepts(v: FormValues) {
    && 1 <= |v.title| <= 200
    && PositiveOrAbsent(v.height_cm)
    && PositiveOrAbsent(v.width_cm)
    && (v.description.None? || |v.description.value| <= 2000)
    && PositiveOrAbsent(v.price_zar)
    && ParseStatus(v.status).Some?
  }

  /**
   * The form values as the form resolver hands them to the submit handler: parsed by the
   * schema, which keeps only the keys it declares.
   */
  function ParseForm(v: FormValues): (r: Option<PaintingFormData>)
    ensures r.Some? <==> SchemaAccepts(v)
    ensures r.Some? ==> && r.value.title == v.title && r.value.height_cm == v.height_cm
                        && r.value.width_cm == v.width_cm && r.value.description == v.description
                        && r.value.price_zar == v.price_zar
                        && StatusName(r.value.status) == v.status
  {
    if SchemaAccepts(v) then
      Some(PaintingFormData(v.title, v.height_cm, v.width_cm, v.description, v.price_zar,
                            ParseStatus(v.status).value))
    else None
  }

  /**
   * The parsed form does not depend on the medium or the frame flag: whatever the user
   * enters in those two fields never reaches a save.
   */
  lemma ParseFormIgnoresMediumAndFrame(v: FormValues, medium: Option<string>, frame: Option<bool>)
    ensures ParseForm(v.(medium_type := medium, frame_included := frame)) == ParseForm(v)
  {
  }

  /** The schema extended with the two fields the form edits but the schema leaves out. */
  function ParseFormFields(v: FormValues): (r: Option<PaintingFields>)
    ensures r.Some? <==> ParseForm(v).Some?
    ensures r.Some? ==> && r.value.title == v.title && r.value.height_cm == v.height_cm
                        && r.value.width_cm == v.width_cm && r.value.description == v.description
                        && r.value.price_zar == v.price_zar
                        && StatusName(r.value.status) == v.status
                        && r.value.medium_type == v.medium_type
                        && r.value.frame_included == v.frame_included
  {
    match ParseForm(v)
    case None => None
    case Some(d) =>
      Some(PaintingFields(d.title, d.height_cm, d.width_cm, d.description, d.price_zar, d.status,
                          v.medium_type, v.frame_included))
  }
}
