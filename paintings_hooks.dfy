/**
 * The catalog's mutations and the admin list's client-side cache: status updates,
 * deletion with blob clean-up, and the drag-to-reorder save, which patches the cached
 * list optimistically, persists one row at a time, and restores the cache if a row fails.
 */
module PaintingsHooks {
  import opened Optional
  import opened Seqs
  import opened Sorting
  import opened Types
  import opened Store
  import opened CatalogViews

  /** One entry of the reorder payload `{ id, sort_index }`. */
  datatype SortUpdate = SortUpdate(id: Id, sort_index: int)

  /**
   * `new Map(updates.map(p => [p.id, p.sort_index])).get(id)`: when an id is listed more
   * than once, the later entry overrides the earlier.
   */
  function LookupSortIndex(updates: seq<SortUpdate>, id: Id): (r: Option<int>)
    ensures r.None? <==> forall i :: 0 <= i < |updates| ==> updates[i].id != id
    ensures r.Some? ==> exists i :: 0 <= i < |updates| && updates[i] == SortUpdate(id, r.value)
                          && forall j :: i < j < |updates| ==> updates[j].id != id
  {
    if updates == [] then None
    else if updates[|updates| - 1].id == id then Some(updates[|updates| - 1].sort_index)
    else
      var r := LookupSortIndex(updates[..|updates| - 1], id);
      assert forall i :: 0 <= i < |updates| - 1 ==> updates[..|updates| - 1][i] == updates[i];
      r
  }

  /** `{ ...painting, sort_index: sortMap.get(painting.id) ?? painting.sort_index }`. */
  function PatchOne(p: Painting, updates: seq<SortUpdate>): Painting {
    p.(sort_index := LookupSortIndex(updates, p.id).GetOr(p.sort_index))
  }

  function PatchRows(rows: seq<Painting>, updates: seq<SortUpdate>): (r: seq<Painting>)
    ensures |r| == |rows|
  {
    seq(|rows|, i requires 0 <= i < |rows| => PatchOne(rows[i], updates))
  }

  /** The comparator `a.sort_index - b.sort_index`. */
  function SortIndexKey(p: Painting): SortKey { SortKey(p.sort_index, 0) }

  /** The optimistic list: every cached painting patched, then sorted by `sort_index`. */
  function Patched(rows: seq<Painting>, updates: seq<SortUpdate>): seq<Painting> {
    SortBy(PatchRows(rows, updates), SortIndexKey)
  }

  /** The cache updater: an empty cache stays empty. */
  function PatchCache(data: Option<seq<Painting>>, updates: seq<SortUpdate>): Option<seq<Painting>> {
    match data
    case None => None
    case Some(rows) => Some(Patched(rows, updates))
  }

  /**
   * Each row's `sort_index` becomes the value listed for its id (the last one, if listed
   * twice) and is kept when its id is not listed; nothing else about a row changes.
   */
  lemma PatchRowsSpec(rows: seq<Painting>, updates: seq<SortUpdate>)
    ensures var r := PatchRows(rows, updates);
      && |r| == |rows|
      && (forall i :: 0 <= i < |r| ==> r[i].(sort_index := rows[i].sort_index) == rows[i])
      && (forall i :: 0 <= i < |r| && (forall k :: 0 <= k < |updates| ==> updates[k].id != rows[i].id)
            ==> r[i].sort_index == rows[i].sort_index)
      && (forall i, k :: 0 <= i < |r| && 0 <= k < |updates| && updates[k].id == rows[i].id
            && (forall j :: k < j < |updates| ==> updates[j].id != rows[i].id)
            ==> r[i].sort_index == updates[k].sort_index)
  {
    forall i, k | 0 <= i < |rows| && 0 <= k < |updates| && updates[k].id == rows[i].id
      && (forall j :: k < j < |updates| ==> updates[j].id != rows[i].id)
      ensures PatchRows(rows, updates)[i].sort_index == updates[k].sort_index
    {
      var r := LookupSortIndex(updates, rows[i].id);
      var m :| 0 <= m < |updates| && updates[m] == SortUpdate(rows[i].id, r.value)
               && forall j :: m < j < |updates| ==> updates[j].id != rows[i].id;
      assert m == k;
    }
  }

  /**
   * The optimistic list holds every cached painting exactly once, patched, in ascending
   * `sort_index` order, paintings with equal `sort_index` keeping their cached order; an
   * empty cache stays empty.
   */
  lemma PatchCacheSpec(data: Option<seq<Painting>>, updates: seq<SortUpdate>)
    ensures data.None? ==> PatchCache(data, updates).None?
    ensures data.Some? ==>
      && PatchCache(data, updates).Some?
      && multiset(PatchCache(data, updates).value) == multiset(PatchRows(data.value, updates))
      && SortedBy(PatchCache(data, updates).value, SortIndexKey)
      && |PatchCache(data, updates).value| == |data.value|
      && forall k :: Filter(PatchCache(data, updates).value, HasKey(SortIndexKey, k))
                     == Filter(PatchRows(data.value, updates), HasKey(SortIndexKey, k))
  {
    if data.Some? {
      forall k {
        SortByStable(PatchRows(data.value, updates), SortIndexKey, k);
      }
    }
  }

  /** The rows after the updates in `updates` were written one after another. */
  function ApplySortIndexes(rows: seq<Painting>, updates: seq<SortUpdate>): (r: seq<Painting>)
    ensures |r| == |rows|
  {
    if updates == [] then rows
    else
      var last := updates[|updates| - 1];
      SetSortIndex(ApplySortIndexes(rows, updates[..|updates| - 1]), last.id, last.sort_index)
  }

  /**
   * Writing the updates one by one leaves the rows exactly as the optimistic patch
   * predicts, before its re-sort: the cache and the store agree once every write succeeded.
   */
  lemma {:induction false} PersistMatchesPatch(rows: seq<Painting>, updates: seq<SortUpdate>)
    ensures ApplySortIndexes(rows, updates) == PatchRows(rows, updates)
  {
    if updates != [] {
      var init := updates[..|updates| - 1];
      var last := updates[|updates| - 1];
      PersistMatchesPatch(rows, init);
      forall i | 0 <= i < |rows|
        ensures ApplySortIndexes(rows, updates)[i] == PatchRows(rows, updates)[i]
      {
        assert init == updates[..|updates| - 1];
      }
    }
  }

  /** The admin list's cached data, `['paintings', 'admin']`. */
  class AdminCache {
    var data: Option<seq<Painting>>

    constructor (data: Option<seq<Painting>>)
      ensures this.data == data
    {
      this.data := data;
    }

    /** `onMutate`: snapshot the cached list, then replace it by the optimistic one. */
    method OnMutate(updates: seq<SortUpdate>) returns (previous: Option<seq<Painting>>)
      modifies this
      ensures previous == old(data)
      ensures data == PatchCache(old(data), updates)
    {
      previous := data;
      data := PatchCache(data, updates);
    }

    /** `onError`: put the snapshot back when there was one. */
    method OnError(previous: Option<seq<Painting>>)
      modifies this
      ensures data == if previous.Some? then previous else old(data)
    {
      if previous.Some? {
        data := previous;
      }
    }
  }

  /**
   * `useUpdateSortIndex`'s `mutationFn`: the rows are updated one at a time in list order;
   * the first failing update ends the loop, leaving earlier updates written and later ones
   * not attempted. `failedAt` is the index of the failing update.
   */
  method PersistSortIndexes(store: CatalogStore, updates: seq<SortUpdate>) returns (failedAt: Option<nat>)
    requires store.Valid()
    modifies store
    ensures store.Valid()
    ensures failedAt.Some? ==> failedAt.value < |updates|
    ensures store.paintings == ApplySortIndexes(old(store.paintings), updates[..failedAt.GetOr(|updates|)])
    ensures store.images == old(store.images) && store.blobs == old(store.blobs)
  {
    var i := 0;
    while i < |updates|
      invariant 0 <= i <= |updates|
      invariant store.Valid()
      invariant store.paintings == ApplySortIndexes(old(store.paintings), updates[..i])
      invariant store.images == old(store.images) && store.blobs == old(store.blobs)
    {
      var ok := store.UpdateSortIndex(updates[i].id, updates[i].sort_index);
      if !ok {
        return Some(i);
      }
      assert updates[..i + 1][..i] == updates[..i];
      i := i + 1;
    }
    assert updates[..|updates|] == updates;
    return None;
  }

  /**
   * The whole reorder mutation: optimistic patch, sequential persistence, and on failure
   * the rollback, after which the cache is exactly what it was before the mutation.
   */
  method UpdateSortIndex(store: CatalogStore, cache: AdminCache, updates: seq<SortUpdate>) returns (ok: bool)
    requires store.Valid()
    modifies store, cache
    ensures store.Valid()
    ensures ok ==> cache.data == PatchCache(old(cache.data), updates)
    ensures ok ==> store.paintings == PatchRows(old(store.paintings), updates)
    ensures !ok ==> cache.data == old(cache.data)
    ensures !ok ==> exists k ::
      (0 <= k < |updates| && store.paintings == ApplySortIndexes(old(store.paintings), updates[..k]))
    ensures store.images == old(store.images) && store.blobs == old(store.blobs)
  {
    var previous := cache.OnMutate(updates);
    var failedAt := PersistSortIndexes(store, updates);
    if failedAt.Some? {
      cache.OnError(previous);
      assert store.paintings == ApplySortIndexes(old(store.paintings), updates[..failedAt.value]);
    } else {
      assert updates[..|updates|] == updates;
      PersistMatchesPatch(old(store.paintings), updates);
    }
    ok := failedAt.None?;
  }

  /** `useUpdatePaintingStatus`'s `mutationFn`. */
  method UpdatePaintingStatus(store: CatalogStore, id: Id, status: Status) returns (ok: bool)
    requires store.Valid()
    modifies store
    ensures store.Valid()
    ensures store.paintings == if ok then SetStatus(old(store.paintings), id, status) else old(store.paintings)
    ensures store.images == old(store.images) && store.blobs == old(store.blobs)
  {
    ok := store.UpdateStatus(id, status);
  }

  /** A status update changes the status of the painting with that id and nothing else. */
  lemma SetStatusSpec(rows: seq<Painting>, id: Id, status: Status)
    ensures var r := SetStatus(rows, id, status);
      && |r| == |rows|
      && (forall i :: 0 <= i < |r| ==> r[i].(status := rows[i].status) == rows[i])
      && (forall i :: 0 <= i < |r| ==> r[i].status == if rows[i].id == id then status else rows[i].status)
  {
  }

  /**
   * `useDeletePainting`'s `mutationFn`: the image URLs are read first (a failed read counts
   * as none), then the painting is deleted (its image rows go with it); only when that
   * succeeds are the blobs removed, and a failed removal is not reported.
   */
  method DeletePainting(store: CatalogStore, id: Id) returns (ok: bool)
    requires store.Valid()
    modifies store
    ensures store.Valid()
    ensures !ok ==> store.paintings == old(store.paintings) && store.images == old(store.images)
                    && store.blobs == old(store.blobs)
    ensures ok ==> store.paintings == WithoutPainting(old(store.paintings), id)
                   && store.images == OtherImages(old(store.images), id)
    ensures ok ==> store.blobs == old(store.blobs)
                   || store.blobs == old(store.blobs) - UrlSet(UrlsOf(ImagesOf(old(store.images), id)))
  {
    var urls := store.SelectImageUrls(id);
    ok := store.DeletePainting(id);
    if !ok {
      return;
    }
    if urls.Some? && |urls.value| > 0 {
      var _ := store.RemoveBlobs(urls.value);
    }
  }

  /** `usePaintings`'s query: the public gallery, or an error. */
  method FetchPublicPaintings(store: CatalogStore) returns (r: Option<seq<Painting>>)
    ensures r.Some? ==> r.value == PublicView(Join(store.paintings, store.images))
  {
    var ok: bool :| true;
    r := if ok then Some(PublicView(Join(store.paintings, store.images))) else None;
  }

  /** `useAdminPaintings`'s query: the admin list, or an error. */
  method FetchAdminPaintings(store: CatalogStore) returns (r: Option<seq<Painting>>)
    ensures r.Some? ==> r.value == AdminView(Join(store.paintings, store.images))
  {
    var ok: bool :| true;
    r := if ok then Some(AdminView(Join(store.paintings, store.images))) else None;
  }
}
