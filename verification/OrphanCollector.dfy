/** The orphan collector's checker and deleter as the loops they are, and what a whole pass removes. */
module OrphanCollector {
  import opened Basics
  import opened ParquetFiles
  import opened Protocol
  import opened CatalogUpdates

  /** The items sent on to the deleter; an item without a file name ends the checker with an error. */
  function Scheduled(items: seq<ObjectMeta>, cutoff: Timestamp, catalog: map<FileId, ParquetFile>): seq<ObjectMeta> {
    if items == [] then []
    else match ShouldDelete(items[0], cutoff, catalog)
      case MissingFileName => []
      case Keep => Scheduled(items[1..], cutoff, catalog)
      case Delete => [items[0]] + Scheduled(items[1..], cutoff, catalog)
  }

  predicate Nameless(item: ObjectMeta, cutoff: Timestamp) {
    item.lastModified <= cutoff && item.location.NoFileName?
  }

  method Check(catalog: Catalog, cutoff: Timestamp, items: seq<ObjectMeta>)
    returns (scheduled: seq<ObjectMeta>, failed: bool)
    ensures scheduled == Scheduled(items, cutoff, catalog.files)
    ensures failed <==> exists i :: 0 <= i < |items| && Nameless(items[i], cutoff)
  {
    hide ShouldDelete, Scheduled, Nameless;
    scheduled := [];
    assert items[0..] == items
        && [] + Scheduled(items, cutoff, catalog.files) == Scheduled(items, cutoff, catalog.files);
    for i := 0 to |items|
      invariant scheduled + Scheduled(items[i..], cutoff, catalog.files) == Scheduled(items, cutoff, catalog.files)
      invariant forall j :: 0 <= j < i ==> !Nameless(items[j], cutoff)
    {
      NextItem(items, i, cutoff, catalog.files, scheduled);
      match ShouldDelete(items[i], cutoff, catalog.files)
      case MissingFileName => return scheduled, true;
      case Keep =>
      case Delete => scheduled := scheduled + [items[i]];
    }
    NothingScheduled(cutoff, catalog.files);
    assert items[|items|..] == [] && scheduled + [] == scheduled;
    failed := false;
  }

  lemma NothingScheduled(cutoff: Timestamp, catalog: map<FileId, ParquetFile>)
    ensures Scheduled([], cutoff, catalog) == []
  {
  }

  lemma NextItem(items: seq<ObjectMeta>, i: nat, cutoff: Timestamp, catalog: map<FileId, ParquetFile>,
                 scheduled: seq<ObjectMeta>)
    requires i < |items|
    ensures var more := Scheduled(items[i + 1..], cutoff, catalog);
            scheduled + Scheduled(items[i..], cutoff, catalog) ==
            match ShouldDelete(items[i], cutoff, catalog)
            case MissingFileName => scheduled
            case Keep => scheduled + more
            case Delete => scheduled + [items[i]] + more
    ensures ShouldDelete(items[i], cutoff, catalog) == MissingFileName <==> Nameless(items[i], cutoff)
  {
    assert items[i..][1..] == items[i + 1..] && items[i..][0] == items[i];
    assert scheduled + [] == scheduled;
    Decides(items[i], cutoff, catalog);
    hide ShouldDelete;
  }

  /** An object goes exactly if it is not newer than the cutoff, has a file name, and is not a parquet file the
      catalog refers to. */
  lemma Decides(item: ObjectMeta, cutoff: Timestamp, catalog: map<FileId, ParquetFile>)
    ensures ShouldDelete(item, cutoff, catalog) == MissingFileName <==> Nameless(item, cutoff)
    ensures ShouldDelete(item, cutoff, catalog) == Delete <==>
            IsOrphan(item.location, item.lastModified, cutoff, catalog)
  {
  }

  predicate IsOrphan(loc: Location, lastModified: Timestamp, cutoff: Timestamp, catalog: map<FileId, ParquetFile>) {
    lastModified <= cutoff && !loc.NoFileName? && (loc.Parquet? ==> !Referenced(catalog, loc.objectId))
  }

  function LocationsOf(items: seq<ObjectMeta>): set<Location> {
    set item | item in items :: item.location
  }

  /** Deletes one item after the other; the first refusal ends it. */
  method DeleteAll(store: ObjectStore, dryRun: bool, items: seq<ObjectMeta>, fails: set<Location>)
    returns (error: Option<Location>)
    modifies store
    ensures dryRun ==> error.None? && store.objects == old(store.objects)
    ensures !dryRun && error.None? ==>
            LocationsOf(items) !! fails && store.objects == old(store.objects) - LocationsOf(items)
    ensures !dryRun && error.Some? ==>
              exists k :: 0 <= k < |items| && items[k].location == error.value && error.value in fails
                && LocationsOf(items[..k]) !! fails && store.objects == old(store.objects) - LocationsOf(items[..k])
  {
    for k := 0 to |items|
      invariant store.objects == old(store.objects) - if dryRun then {} else LocationsOf(items[..k])
      invariant !dryRun ==> LocationsOf(items[..k]) !! fails
    {
      if !dryRun {
        var ok := store.Delete(items[k].location, fails);
        if !ok {
          return Some(items[k].location);
        }
        assert items[..k + 1] == items[..k] + [items[k]];
        assert LocationsOf(items[..k + 1]) == LocationsOf(items[..k]) + {items[k].location};
      }
    }
    assert items[..|items|] == items;
    error := None;
  }

  /** `items` lists the store: every object once or more, as it is, and nothing else. */
  ghost predicate ListingOf(items: seq<ObjectMeta>, objects: map<Location, Object>) {
    && (forall item <- items :: item.location in objects && item.lastModified == objects[item.location].lastModified)
    && (forall loc :: loc in objects ==> ObjectMeta(loc, objects[loc].lastModified) in items)
  }

  lemma {:induction false} ScheduledIff(items: seq<ObjectMeta>, cutoff: Timestamp, catalog: map<FileId, ParquetFile>,
                                        item: ObjectMeta)
    requires forall i :: 0 <= i < |items| ==> !Nameless(items[i], cutoff)
    ensures item in Scheduled(items, cutoff, catalog) <==>
            item in items && IsOrphan(item.location, item.lastModified, cutoff, catalog)
  {
    hide ShouldDelete, IsOrphan;
    if items != [] {
      Decides(items[0], cutoff, catalog);
      ScheduledIff(items[1..], cutoff, catalog, item);
    }
  }

  /** A pass that nothing interferes with removes exactly the orphans, and no object of a catalog record. */
  lemma PassRemovesOrphans(objects: map<Location, Object>, items: seq<ObjectMeta>, cutoff: Timestamp,
                           catalog: map<FileId, ParquetFile>)
    requires ListingOf(items, objects) && NoFileName !in objects
    ensures var gone := LocationsOf(Scheduled(items, cutoff, catalog));
            && (forall loc :: loc in gone <==>
                loc in objects && IsOrphan(loc, objects[loc].lastModified, cutoff, catalog))
            && forall id :: id in catalog ==> Parquet(catalog[id].objectStoreId) !in gone
  {
    hide Scheduled, IsOrphan;
    var scheduled := Scheduled(items, cutoff, catalog);
    assert forall i :: 0 <= i < |items| ==> items[i] in items;
    forall loc ensures loc in LocationsOf(scheduled) <==>
        loc in objects && IsOrphan(loc, objects[loc].lastModified, cutoff, catalog) {
      if loc in objects {
        ScheduledIff(items, cutoff, catalog, ObjectMeta(loc, objects[loc].lastModified));
      }
      if loc in LocationsOf(scheduled) {
        var item :| item in scheduled && item.location == loc;
        ScheduledIff(items, cutoff, catalog, item);
      }
    }
    forall id | id in catalog ensures Parquet(catalog[id].objectStoreId) !in LocationsOf(scheduled) {
      NotAnOrphan(catalog, id, cutoff, objects);
    }
  }

  lemma NotAnOrphan(catalog: map<FileId, ParquetFile>, id: FileId, cutoff: Timestamp, objects: map<Location, Object>)
    requires id in catalog
    ensures forall t :: !IsOrphan(Parquet(catalog[id].objectStoreId), t, cutoff, catalog)
  {
    assert Referenced(catalog, catalog[id].objectStoreId);
  }
}
