/** The catalog and the object store as the compactor and its clean-up change them, call by call. */
module CatalogUpdates {
  import opened Basics
  import opened ParquetFiles
  import opened Protocol

  datatype Error = FileExists(objectId: ObjectId) | RecordNotFound(id: FileId)

  class Catalog {
    var files: map<FileId, ParquetFile>
    var nextFileId: FileId

    constructor ()
      ensures files == map[] && nextFileId == 0
    {
      files, nextFileId := map[], 0;
    }

    /** Adds a record under a new id, unless one for the same object exists. */
    method Create(o: ObjectId, u: Upload, maxSequence: int) returns (error: Option<Error>)
      modifies this
      ensures error == if Referenced(old(files), o) then Some(FileExists(o)) else None
      ensures error.None? ==>
        && files == old(files)[old(nextFileId) := OutputFile(old(nextFileId), o, u, maxSequence)]
        && nextFileId == old(nextFileId) + 1
      ensures error.Some? ==> files == old(files) && nextFileId == old(nextFileId)
    {
      if id :| id in files && files[id].objectStoreId == o {
        return Some(FileExists(o));
      }
      files := files[nextFileId := OutputFile(nextFileId, o, u, maxSequence)];
      nextFileId := nextFileId + 1;
      error := None;
    }

    method FlagForDelete(id: FileId, now: Timestamp) returns (error: Option<Error>)
      modifies this`files
      ensures error == if id in old(files) then None else Some(RecordNotFound(id))
      ensures files == Flag(old(files), {id}, now)
    {
      if id !in files {
        assert files == Flag(files, {id}, now);
        return Some(RecordNotFound(id));
      }
      files := files[id := files[id].(toDelete := Some(now))];
      error := None;
    }

    /** Parts the records: those flagged before `olderThan` are returned, the others stay. */
    method DeleteOld(olderThan: Timestamp) returns (deleted: map<FileId, ParquetFile>)
      modifies this`files
      ensures forall id :: id in old(files) ==>
                var f := old(files)[id];
                if f.toDelete.Some? && f.toDelete.value < olderThan
                then id !in files && id in deleted && deleted[id] == f
                else id !in deleted && id in files && files[id] == f
      ensures deleted.Keys + files.Keys == old(files).Keys
    {
      deleted := map[];
      var keep: map<FileId, ParquetFile> := map[];
      var todo := files;
      while todo != map[]
        invariant deleted.Keys + keep.Keys + todo.Keys == files.Keys
        invariant forall id :: id in deleted ==>
                  id in files && deleted[id] == files[id] && Flagged(files[id], olderThan)
        invariant forall id :: id in keep ==> id in files && keep[id] == files[id] && !Flagged(files[id], olderThan)
        invariant forall id :: id in todo ==> id in files && todo[id] == files[id]
        decreases todo.Keys
      {
        var id :| id in todo;
        if Flagged(todo[id], olderThan) {
          deleted := deleted[id := todo[id]];
        } else {
          keep := keep[id := todo[id]];
        }
        todo := todo - {id};
      }
      files := keep;
    }
  }

  lemma FlagTwice(files: map<FileId, ParquetFile>, a: set<FileId>, b: set<FileId>, now: Timestamp)
    ensures Flag(Flag(files, a, now), b, now) == Flag(files, a + b, now)
  {
  }

  lemma FlagMisses(files: map<FileId, ParquetFile>, created: map<FileId, ParquetFile>, ids: set<FileId>, now: Timestamp)
    requires created.Keys !! ids
    ensures Flag(files + created, ids, now) == Flag(files, ids, now) + created
  {
  }

  /** Output `k` is the first one whose object is recorded already. */
  ghost predicate IsFirstRecorded(files: map<FileId, ParquetFile>, outputs: seq<ObjectId>, k: nat) {
    k < |outputs| && Referenced(files, outputs[k]) && forall j :: 0 <= j < k ==> !Referenced(files, outputs[j])
  }

  /** Adds the outputs one by one, up to the first whose object is recorded already. */
  method CreateAll(catalog: Catalog, outputs: seq<ObjectId>, uploads: map<ObjectId, Upload>, maxSequence: int)
    returns (error: Option<Error>)
    requires AllUploaded(outputs, uploads)
    requires forall id :: id in catalog.files ==> id < catalog.nextFileId
    modifies catalog
    ensures error.None? <==> forall k :: 0 <= k < |outputs| ==> !Referenced(old(catalog.files), outputs[k])
    ensures error.None? ==>
      && catalog.files == old(catalog.files) + Created(old(catalog.nextFileId), outputs, uploads, maxSequence)
      && catalog.nextFileId == old(catalog.nextFileId) + |outputs|
    ensures error.Some? ==>
      exists k: nat :: IsFirstRecorded(old(catalog.files), outputs, k)
        && error == Some(FileExists(outputs[k])) && catalog.nextFileId == old(catalog.nextFileId) + k
        && catalog.files == old(catalog.files) + Created(old(catalog.nextFileId), outputs[..k], uploads, maxSequence)
  {
    ghost var before, first := catalog.files, catalog.nextFileId;
    for k := 0 to |outputs|
      invariant catalog.files == before + Created(first, outputs[..k], uploads, maxSequence)
      invariant catalog.nextFileId == first + k
      invariant forall j :: 0 <= j < k ==> !Referenced(before, outputs[j])
    {
      var o := outputs[k];
      assert outputs[..k + 1][..k] == outputs[..k];
      CreatedReferences(before, first, outputs, uploads, maxSequence, k);
      error := catalog.Create(o, uploads[o], maxSequence);
      if error.Some? {
        assert IsFirstRecorded(before, outputs, k);
        return;
      }
      CreatedOneMore(before, first, outputs, uploads, maxSequence, k);
    }
    assert outputs[..|outputs|] == outputs;
    error := None;
  }

  lemma CreatedOneMore(files: map<FileId, ParquetFile>, first: FileId, outputs: seq<ObjectId>,
                       uploads: map<ObjectId, Upload>, maxSequence: int, k: nat)
    requires AllUploaded(outputs, uploads) && k < |outputs|
    ensures (files + Created(first, outputs[..k], uploads, maxSequence))
              [first + k := OutputFile(first + k, outputs[k], uploads[outputs[k]], maxSequence)]
            == files + Created(first, outputs[..k + 1], uploads, maxSequence)
  {
    assert outputs[..k + 1][..k] == outputs[..k];
  }

  ghost predicate IsFirstMissing(catalog: map<FileId, ParquetFile>, files: seq<ParquetFile>, i: nat) {
    i < |files| && files[i].id !in catalog && Ids(files[..i]) <= catalog.Keys
  }

  /** Flags the inputs one by one, up to the first that has no record. */
  method FlagAll(catalog: Catalog, files: seq<ParquetFile>, now: Timestamp) returns (error: Option<Error>)
    modifies catalog`files
    ensures error.None? <==> Ids(files) <= old(catalog.files).Keys
    ensures error.None? ==> catalog.files == Flag(old(catalog.files), Ids(files), now)
    ensures error.Some? ==>
      exists i: nat :: IsFirstMissing(old(catalog.files), files, i) && error == Some(RecordNotFound(files[i].id))
        && catalog.files == Flag(old(catalog.files), Ids(files[..i]), now)
  {
    ghost var before := catalog.files;
    for i := 0 to |files|
      invariant Ids(files[..i]) <= before.Keys && catalog.files == Flag(before, Ids(files[..i]), now)
    {
      var id := files[i].id;
      assert id in Ids(files);
      error := catalog.FlagForDelete(id, now);
      if error.Some? {
        assert IsFirstMissing(before, files, i);
        assert Flag(Flag(before, Ids(files[..i]), now), {id}, now) == Flag(before, Ids(files[..i]), now);
        return;
      }
      FlagTwice(before, Ids(files[..i]), {id}, now);
      assert files[..i + 1] == files[..i] + [files[i]];
      assert Ids(files[..i + 1]) == Ids(files[..i]) + {id};
    }
    assert files[..|files|] == files;
    error := None;
  }

  /** No output's object is recorded and every input is. */
  ghost predicate Succeeds(catalog: map<FileId, ParquetFile>, files: seq<ParquetFile>, outputs: seq<ObjectId>) {
    (forall k :: 0 <= k < |outputs| ==> !Referenced(catalog, outputs[k])) && Ids(files) <= catalog.Keys
  }

  /** The catalog update of a finished compaction: one transaction that creates the outputs and flags the
      inputs, or, on any error, rolls back to the catalog it started from. */
  method UpdateCatalog(catalog: Catalog, files: seq<ParquetFile>, outputs: seq<ObjectId>,
                       uploads: map<ObjectId, Upload>, now: Timestamp)
    returns (error: Option<Error>)
    requires files != [] && AllUploaded(outputs, uploads)
    requires forall id :: id in Ids(files) || id in catalog.files ==> id < catalog.nextFileId
    modifies catalog
    ensures error.None? ==>
      && catalog.files == CommitCatalog(old(catalog.files), old(catalog.nextFileId), files, outputs, uploads, now)
      && catalog.nextFileId == old(catalog.nextFileId) + |outputs|
    ensures error.Some? ==> catalog.files == old(catalog.files)
    ensures error.None? <==> Succeeds(old(catalog.files), files, outputs)
  {
    var before := catalog.files;
    ghost var first := catalog.nextFileId;
    error := CreateAll(catalog, outputs, uploads, MaxSequence(files));
    if error.None? {
      FlagMisses(before, Created(first, outputs, uploads, MaxSequence(files)), Ids(files), now);
      error := FlagAll(catalog, files, now);
    }
    if error.Some? {
      catalog.files := before;
    }
  }

  /** Outputs have distinct objects, so creating some of them never makes another one a duplicate. */
  lemma CreatedReferences(files: map<FileId, ParquetFile>, first: FileId, outputs: seq<ObjectId>,
                          uploads: map<ObjectId, Upload>, maxSequence: int, k: nat)
    requires AllUploaded(outputs, uploads) && k < |outputs| && forall id :: id in files ==> id < first
    ensures Referenced(files + Created(first, outputs[..k], uploads, maxSequence), outputs[k]) <==>
            Referenced(files, outputs[k])
  {
    var created := Created(first, outputs[..k], uploads, maxSequence);
    assert forall id :: id in files ==> id in files + created && (files + created)[id] == files[id];
    forall id | id in created ensures created[id].objectStoreId != outputs[k] {
      assert uploads[outputs[id - first]].stream == id - first;
    }
  }

  class ObjectStore {
    var objects: map<Location, Object>

    constructor ()
      ensures objects == map[]
    {
      objects := map[];
    }

    /** The store may refuse; `fails` says for which locations it does. */
    method Delete(loc: Location, fails: set<Location>) returns (ok: bool)
      modifies this
      ensures ok == (loc !in fails)
      ensures objects == if ok then old(objects) - {loc} else old(objects)
    {
      ok := loc !in fails;
      if ok {
        objects := objects - {loc};
      }
    }
  }

  function Locations(deleted: map<FileId, ParquetFile>): set<Location> {
    set id | id in deleted :: Parquet(deleted[id].objectStoreId)
  }

  /** The objects of removed records, one after the other; a failed deletion is reported and the rest goes on. */
  method DeleteObjects(store: ObjectStore, deleted: map<FileId, ParquetFile>, fails: set<Location>)
    returns (errors: set<Location>)
    modifies store
    ensures store.objects == old(store.objects) - (Locations(deleted) - fails) && errors == Locations(deleted) * fails
  {
    errors := {};
    var todo := deleted;
    ghost var done: set<Location> := {};
    while todo != map[]
      invariant Locations(todo) + done == Locations(deleted)
      invariant store.objects == old(store.objects) - (done - fails) && errors == done * fails
      decreases todo.Keys
    {
      var id :| id in todo;
      var loc := Parquet(todo[id].objectStoreId);
      OneLocationLess(todo, id);
      var ok := store.Delete(loc, fails);
      if !ok {
        errors := errors + {loc};
      }
      done := done + {loc};
      todo := todo - {id};
    }
    assert Locations(todo) == {};
  }

  lemma OneLocationLess(todo: map<FileId, ParquetFile>, id: FileId)
    requires id in todo
    ensures Locations(todo) == Locations(todo - {id}) + {Parquet(todo[id].objectStoreId)}
  {
    var rest := todo - {id};
    assert forall i :: i in rest ==> i in todo;
    assert forall i :: i in todo ==> i == id || i in rest;
  }

  /** A pass of the compactor's garbage collector: the records flagged before `olderThan` are removed
      first, then each of their objects is deleted. */
  method Cleanup(catalog: Catalog, store: ObjectStore, olderThan: Timestamp, fails: set<Location>)
    returns (errors: set<Location>)
    modifies catalog`files, store
    ensures catalog.files == Kept(old(catalog.files), olderThan)
    ensures var gone := Locations(Removed(old(catalog.files), olderThan));
            store.objects == old(store.objects) - (gone - fails) && errors == gone * fails
  {
    var deleted := catalog.DeleteOld(olderThan);
    assert deleted == Removed(old(catalog.files), olderThan);
    errors := DeleteObjects(store, deleted, fails);
  }

  /** The bounds and the sequence number of the merged data, as the compaction computes them in one loop. */
  method MergedBounds(files: seq<ParquetFile>) returns (maxSequence: int, minTime: Timestamp, maxTime: Timestamp)
    requires files != []
    ensures maxSequence == MaxSequence(files) && (minTime, maxTime) == Bounds(files)
  {
    var head := files[0];
    maxSequence, minTime, maxTime := head.maxSequenceNumber, head.minTime, head.maxTime;
    for i := 1 to |files|
      invariant maxSequence == MaxSequence(files[..i]) && (minTime, maxTime) == Bounds(files[..i])
    {
      assert files[..i + 1][..i] == files[..i];
      var c := files[i];
      maxSequence := if c.maxSequenceNumber > maxSequence then c.maxSequenceNumber else maxSequence;
      minTime := if c.minTime < minTime then c.minTime else minTime;
      maxTime := if c.maxTime > maxTime then c.maxTime else maxTime;
    }
    assert files[..|files|] == files;
  }
}
