/**
 * The admin list's handlers: dragging a row to a new place saves the new order as
 * `sort_index` values 0, 10, 20, ...; the two status buttons toggle sold/available and
 * hidden/visible.
 */
module PaintingsList {
  import opened Optional
  import opened Seqs
  import opened Sorting
  import opened Types
  import opened Store
  import opened PaintingsHooks

  function HasPaintingId(id: Id): Painting -> bool {
    (p: Painting) => p.id == id
  }

  /** The payload of a reorder: every painting in its new place, `sort_index = 10 * index`. */
  function SortUpdates(reordered: seq<Painting>): (r: seq<SortUpdate>)
    ensures |r| == |reordered|
    ensures forall i :: 0 <= i < |r| ==> r[i].id == reordered[i].id
    ensures forall i, j :: 0 <= i < j < |r| ==> 0 <= r[i].sort_index < r[j].sort_index
  {
    seq(|reordered|, i requires 0 <= i < |reordered| => SortUpdate(reordered[i].id, 10 * i))
  }

  /** The list with every painting's `sort_index` set to ten times its index. */
  function Spaced(rows: seq<Painting>): seq<Painting> {
    seq(|rows|, i requires 0 <= i < |rows| => rows[i].(sort_index := 10 * i))
  }

  /** A move keeps painting ids distinct. */
  lemma MoveDistinct(rows: seq<Painting>, from: nat, to: nat)
    requires from < |rows| && to < |rows| && DistinctIds(rows)
    ensures DistinctIds(Move(rows, from, to))
  {
    MoveAt(rows, from, to);
    MoveSpec(rows, from, to);
    var m := Move(rows, from, to);
    forall i, j | 0 <= i < |m| && 0 <= j < |m| && m[i].id == m[j].id ensures i == j {
      assert rows[MoveSource(from, to, i)].id == rows[MoveSource(from, to, j)].id;
    }
  }

  /** Patching a list with its own spaced payload spaces it. */
  lemma PatchWithOwnUpdates(rows: seq<Painting>)
    requires DistinctIds(rows)
    ensures PatchRows(rows, SortUpdates(rows)) == Spaced(rows)
  {
    var u := SortUpdates(rows);
    forall i | 0 <= i < |rows| ensures PatchRows(rows, u)[i] == Spaced(rows)[i] {
      assert u[i].id == rows[i].id;
      var v := LookupSortIndex(u, rows[i].id);
      var k :| 0 <= k < |u| && u[k] == SortUpdate(rows[i].id, v.value)
               && forall j :: k < j < |u| ==> u[j].id != rows[i].id;
      assert rows[k].id == rows[i].id;
    }
  }

  lemma PatchRowsAsMap(rows: seq<Painting>, updates: seq<SortUpdate>)
    ensures PatchRows(rows, updates) == MapSeq(rows, (p: Painting) => PatchOne(p, updates))
  {
  }

  /**
   * Feeding the drag payload to the optimistic patch of the same cached list yields
   * exactly the reordered list, with `sort_index` values 0, 10, 20, ...: the optimistic
   * list shows the order the user dropped.
   */
  lemma DragPatchIsReordered(rows: seq<Painting>, from: nat, to: nat)
    requires from < |rows| && to < |rows| && DistinctIds(rows)
    ensures Patched(rows, SortUpdates(Move(rows, from, to))) == Spaced(Move(rows, from, to))
  {
    var m := Move(rows, from, to);
    var u := SortUpdates(m);
    var f := (p: Painting) => PatchOne(p, u);
    MoveSpec(rows, from, to);
    MoveDistinct(rows, from, to);
    PatchWithOwnUpdates(m);
    PatchRowsAsMap(rows, u);
    PatchRowsAsMap(m, u);
    MapMultiset(rows, m, f);
    var target := Spaced(m);
    assert StrictlySortedBy(target, SortIndexKey);
    SortedArrangementUnique(target, Patched(rows, u), SortIndexKey);
  }

  /**
   * `handleDragEnd`: nothing happens without a drop target, when a row is dropped on
   * itself, or before the list has loaded. Otherwise the dragged painting is spliced out
   * of a copy of the cached list and back in at the target's index, and the payload of
   * the new order is saved through the reorder mutation. `saved` is `None` when nothing
   * happened, else whether the save succeeded.
   */
  method HandleDragEnd(store: CatalogStore, cache: AdminCache, activeId: Id, overId: Option<Id>)
    returns (saved: Option<bool>, ghost reordered: seq<Painting>)
    requires store.Valid()
    requires cache.data.Some? ==> Exists(cache.data.value, HasPaintingId(activeId))
    requires cache.data.Some? && overId.Some? ==> Exists(cache.data.value, HasPaintingId(overId.value))
    modifies store, cache
    ensures store.Valid()
    ensures overId.None? || overId.value == activeId || old(cache.data).None? ==>
      && saved.None?
      && cache.data == old(cache.data) && store.paintings == old(store.paintings)
    ensures overId.Some? && overId.value != activeId && old(cache.data).Some? ==>
      var rows := old(cache.data).value;
      && FindIndex(rows, HasPaintingId(activeId)).Some?
      && FindIndex(rows, HasPaintingId(overId.value)).Some?
      && reordered == Move(rows, FindIndex(rows, HasPaintingId(activeId)).value,
                           FindIndex(rows, HasPaintingId(overId.value)).value)
      && saved.Some?
      && (saved.value ==> cache.data == PatchCache(old(cache.data), SortUpdates(reordered)))
      && (saved.value && DistinctIds(rows) ==> cache.data == Some(Spaced(reordered)))
      && (saved.value ==> store.paintings == PatchRows(old(store.paintings), SortUpdates(reordered)))
      && (!saved.value ==> cache.data == old(cache.data))
    ensures store.images == old(store.images) && store.blobs == old(store.blobs)
  {
    reordered := [];
    if overId.None? || overId.value == activeId || cache.data.None? {
      return None, reordered;
    }
    var paintings := cache.data.value;
    var oldIndex := FindIndex(paintings, HasPaintingId(activeId)).value;
    var newIndex := FindIndex(paintings, HasPaintingId(overId.value)).value;
    var copy := paintings;
    var moved := copy[oldIndex];
    copy := Without(copy, oldIndex);
    copy := InsertAt(copy, newIndex, moved);
    reordered := copy;
    var updates := SortUpdates(copy);
    var ok := UpdateSortIndex(store, cache, updates);
    if ok && DistinctIds(paintings) {
      DragPatchIsReordered(paintings, oldIndex, newIndex);
    }
    saved := Some(ok);
  }

  /** `handleToggleStatus`'s new status: available becomes sold, anything else available. */
  function ToggleStatus(s: Status): (r: Status)
    ensures r != Hidden
    ensures r == Sold <==> s == Available
  {
    if s == Available then Sold else Available
  }

  /** `handleToggleHidden`'s new status: hidden becomes available, anything else hidden. */
  function ToggleHidden(s: Status): (r: Status)
    ensures r == Hidden <==> s != Hidden
    ensures r != Sold
  {
    if s == Hidden then Available else Hidden
  }

  /**
   * Toggling the status twice restores it unless the painting was hidden; hiding and
   * showing again restores it unless it was sold, which comes back as available.
   */
  lemma TogglesRoundTrip(s: Status)
    ensures ToggleStatus(ToggleStatus(s)) == s <==> s != Hidden
    ensures ToggleHidden(ToggleHidden(s)) == s <==> s != Sold
    ensures ToggleHidden(ToggleHidden(Sold)) == Available
  {
  }

  method HandleToggleStatus(store: CatalogStore, painting: Painting) returns (ok: bool)
    requires store.Valid()
    modifies store
    ensures store.Valid()
    ensures store.paintings == if ok then SetStatus(old(store.paintings), painting.id, ToggleStatus(painting.status))
                               else old(store.paintings)
    ensures store.images == old(store.images) && store.blobs == old(store.blobs)
  {
    ok := UpdatePaintingStatus(store, painting.id, ToggleStatus(painting.status));
  }

  method HandleToggleHidden(store: CatalogStore, painting: Painting) returns (ok: bool)
    requires store.Valid()
    modifies store
    ensures store.Valid()
    ensures store.paintings == if ok then SetStatus(old(store.paintings), painting.id, ToggleHidden(painting.status))
                               else old(store.paintings)
    ensures store.images == old(store.images) && store.blobs == old(store.blobs)
  {
    ok := UpdatePaintingStatus(store, painting.id, ToggleHidden(painting.status));
  }
}
