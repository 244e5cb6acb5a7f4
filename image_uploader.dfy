/**
 * The image editor's working set and its handlers: add (file picker or drop), remove,
 * set primary, set secondary, edit alt text, drag to reorder, and the effect that makes a
 * lone image primary. Each handler maps the current list to the list passed on.
 */
module ImageUploader {
  import opened Optional
  import opened Seqs
  import opened Types
  import opened Validation

  /** The entry created for the `index`-th of the files added to a list of `count` entries. */
  function NewEntry(file: File, count: nat, index: nat): ImageFile {
    ImageFile(None, Some(file), count == 0 && index == 0, count == 1 && index == 0, "",
              count + index, None)
  }

  /**
   * `handleFileSelect`: the files appended as new entries, or the list unchanged when the
   * result would hold more than six images.
   */
  function AddFiles(images: seq<ImageFile>, files: seq<File>): seq<ImageFile> {
    if |images| + |files| > MaxImages then images
    else images + seq(|files|, i requires 0 <= i < |files| => NewEntry(files[i], |images|, i))
  }

  predicate IsAcceptedType(f: File) {
    f.mime_type == "image/jpeg" || f.mime_type == "image/png" || f.mime_type == "image/webp"
  }

  /** `handleDrop`: files of another type are discarded first, then the rest are added. */
  function DropFiles(images: seq<ImageFile>, files: seq<File>): seq<ImageFile> {
    AddFiles(images, Filter(files, IsAcceptedType))
  }

  /** Adding never takes the list past six images, and rejects the whole batch if it would. */
  lemma AddFilesBound(images: seq<ImageFile>, files: seq<File>)
    ensures |images| + |files| > MaxImages ==> AddFiles(images, files) == images
    ensures |images| <= MaxImages ==> |AddFiles(images, files)| <= MaxImages
  {
  }

  /**
   * An accepted batch keeps the old list as a prefix and appends one entry per file, in
   * order, at position old length + index with empty alt text; the first new entry is
   * flagged primary when the list was empty and secondary when it held one image.
   */
  lemma AddFilesAppends(images: seq<ImageFile>, files: seq<File>)
    requires |images| + |files| <= MaxImages
    ensures var r := AddFiles(images, files);
      && |r| == |images| + |files|
      && r[..|images|] == images
      && forall i :: 0 <= i < |files| ==>
           && r[|images| + i].file == Some(files[i])
           && r[|images| + i].id.None?
           && r[|images| + i].position == |images| + i
           && r[|images| + i].alt == ""
           && (r[|images| + i].is_primary <==> |images| == 0 && i == 0)
           && (r[|images| + i].is_secondary <==> |images| == 1 && i == 0)
  {
  }

  /** A drop adds only JPEG, PNG and WebP files. */
  lemma DropAddsOnlyAcceptedTypes(images: seq<ImageFile>, files: seq<File>)
    ensures var r := DropFiles(images, files);
      forall i :: |images| <= i < |r| ==> r[i].file.Some? && IsAcceptedType(r[i].file.value)
  {
    var accepted := Filter(files, IsAcceptedType);
    FilterMembers(files, IsAcceptedType);
    if |images| + |accepted| <= MaxImages {
      AddFilesAppends(images, accepted);
    }
  }

  /**
   * `handleRemove`: the entry at `index` is filtered out; when exactly one entry remains it
   * is flagged primary. Positions are not renumbered.
   */
  method HandleRemove(images: seq<ImageFile>, index: nat) returns (r: seq<ImageFile>)
    ensures |r| == |Without(images, index)|
    ensures index < |images| ==> |r| == |images| - 1
    ensures forall j :: 0 <= j < |r| ==>
      r[j].(is_primary := false) == Without(images, index)[j].(is_primary := false)
    ensures forall j :: 0 <= j < |r| ==>
      r[j].is_primary == (Without(images, index)[j].is_primary || |r| == 1)
  {
    r := Without(images, index);
    if |r| == 1 {
      r := r[0 := r[0].(is_primary := true)];
    }
  }

  /** `handleSetPrimary`: the flag set on entry `index` and cleared on every other entry. */
  function SetPrimary(images: seq<ImageFile>, index: nat): seq<ImageFile> {
    seq(|images|, i requires 0 <= i < |images| => images[i].(is_primary := i == index))
  }

  /** `handleSetSecondary`: the same for the secondary flag. */
  function SetSecondary(images: seq<ImageFile>, index: nat): seq<ImageFile> {
    seq(|images|, i requires 0 <= i < |images| => images[i].(is_secondary := i == index))
  }

  /** `handleAltChange`: entry `index` gets the new alt text. */
  function SetAlt(images: seq<ImageFile>, index: nat, alt: string): seq<ImageFile> {
    seq(|images|, i requires 0 <= i < |images| => if i == index then images[i].(alt := alt) else images[i])
  }

  /**
   * After set-primary exactly entry `index` is primary, nothing else changes, and the
   * validator finds that entry as the primary image.
   */
  lemma SetPrimarySpec(images: seq<ImageFile>, index: nat)
    requires index < |images|
    ensures var r := SetPrimary(images, index);
      && |r| == |images|
      && (forall j :: 0 <= j < |r| ==> (r[j].is_primary <==> j == index))
      && (forall j :: 0 <= j < |r| ==> r[j].(is_primary := images[j].is_primary) == images[j])
      && FindIndex(r, IsPrimary) == Some(index)
  {
    assert IsPrimary(SetPrimary(images, index)[index]);
  }

  /** After set-secondary exactly entry `index` is secondary and nothing else changes. */
  lemma SetSecondarySpec(images: seq<ImageFile>, index: nat)
    requires index < |images|
    ensures var r := SetSecondary(images, index);
      && |r| == |images|
      && (forall j :: 0 <= j < |r| ==> (r[j].is_secondary <==> j == index))
      && (forall j :: 0 <= j < |r| ==> r[j].(is_secondary := images[j].is_secondary) == images[j])
      && Exists(r, IsSecondary)
  {
    assert IsSecondary(SetSecondary(images, index)[index]);
  }

  /** Editing alt text changes the alt text of entry `index` and nothing else. */
  lemma SetAltSpec(images: seq<ImageFile>, index: nat, alt: string)
    requires index < |images|
    ensures var r := SetAlt(images, index, alt);
      && |r| == |images| && r[index].alt == alt
      && r[index].(alt := images[index].alt) == images[index]
      && forall j :: 0 <= j < |r| && j != index ==> r[j] == images[j]
  {
  }

  /** The effect that flags a lone, unflagged image as primary. */
  function AutoPrimary(images: seq<ImageFile>): seq<ImageFile> {
    if |images| == 1 && !images[0].is_primary then [images[0].(is_primary := true)] else images
  }

  /**
   * After the effect a lone image is primary (and otherwise unchanged), longer lists are
   * untouched, and a lone image then passes validation exactly when its alt text is set.
   */
  lemma AutoPrimarySpec(images: seq<ImageFile>)
    ensures var r := AutoPrimary(images);
      && |r| == |images|
      && (|images| == 1 ==> r[0].is_primary && r[0].(is_primary := images[0].is_primary) == images[0])
      && (|images| != 1 ==> r == images)
      && (|images| == 1 ==> (ValidateImages(r) == None <==> !JsText.Blank(images[0].alt)))
  {
    if |images| == 1 {
      SinglePrimaryImageNeedsAlt(AutoPrimary(images)[0]);
      assert AutoPrimary(images) == [AutoPrimary(images)[0]];
    }
  }

  /** Every entry's position set to its index. */
  function Renumber(images: seq<ImageFile>): seq<ImageFile> {
    seq(|images|, i requires 0 <= i < |images| => images[i].(position := i))
  }

  /** The entries with their positions erased, to compare lists up to renumbering. */
  function Unpositioned(images: seq<ImageFile>): seq<ImageFile> {
    seq(|images|, i requires 0 <= i < |images| => images[i].(position := 0))
  }

  /**
   * `handleDragEnd`: nothing happens without a drop target or when the dragged entry is
   * dropped on itself; otherwise the entry at `active` is spliced out and back in at `over`
   * and every position is set to the entry's new index.
   */
  method HandleDragEnd(images: seq<ImageFile>, active: nat, over: Option<nat>) returns (r: seq<ImageFile>)
    requires active < |images| && (over.Some? ==> over.value < |images|)
    ensures over.None? || over.value == active ==> r == images
    ensures over.Some? && over.value != active ==>
      && |r| == |images|
      && (forall j :: 0 <= j < |r| ==> r[j].position == j)
      && Unpositioned(r) == Move(Unpositioned(images), active, over.value)
      && r[over.value].(position := images[active].position) == images[active]
      && Without(Unpositioned(r), over.value) == Without(Unpositioned(images), active)
      && multiset(Unpositioned(r)) == multiset(Unpositioned(images))
  {
    if over.None? || over.value == active {
      return images;
    }
    var target := over.value;
    var reordered := images;
    var moved := reordered[active];
    reordered := Without(reordered, active);
    reordered := InsertAt(reordered, target, moved);
    r := Renumber(reordered);
    UnpositionedCommutesWithMove(images, active, target);
    MoveSpec(Unpositioned(images), active, target);
  }

  lemma UnpositionedCommutesWithMove(images: seq<ImageFile>, from: nat, to: nat)
    requires from < |images| && to < |images|
    ensures Unpositioned(Renumber(Move(images, from, to))) == Move(Unpositioned(images), from, to)
  {
    var w := Without(images, from);
    UnpositionedRenumber(InsertAt(w, to, images[from]));
    UnpositionedInsertAt(w, to, images[from]);
    UnpositionedWithout(images, from);
  }

  lemma UnpositionedRenumber(images: seq<ImageFile>)
    ensures Unpositioned(Renumber(images)) == Unpositioned(images)
  {
  }

  lemma UnpositionedWithout(images: seq<ImageFile>, i: nat)
    requires i < |images|
    ensures Unpositioned(Without(images, i)) == Without(Unpositioned(images), i)
  {
    var a := Unpositioned(Without(images, i));
    var b := Without(Unpositioned(images), i);
    assert |a| == |b|;
    forall j | 0 <= j < |a| ensures a[j] == b[j] {
      if j < i {
        assert b[j] == Unpositioned(images)[j];
      } else {
        assert b[j] == Unpositioned(images)[j + 1];
      }
    }
  }

  lemma UnpositionedInsertAt(images: seq<ImageFile>, i: nat, x: ImageFile)
    requires i <= |images|
    ensures Unpositioned(InsertAt(images, i, x)) == InsertAt(Unpositioned(images), i, x.(position := 0))
  {
    var a := Unpositioned(InsertAt(images, i, x));
    var b := InsertAt(Unpositioned(images), i, x.(position := 0));
    assert |a| == |b|;
    forall j | 0 <= j < |a| ensures a[j] == b[j] {
      if j < i {
        assert b[j] == Unpositioned(images)[j];
      } else if j > i {
        assert b[j] == Unpositioned(images)[j - 1];
      }
    }
  }
}
