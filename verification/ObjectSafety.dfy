/** No step ever deletes an object that the catalog refers to, or will come to refer to. */
module ObjectSafety {
  import opened Basics
  import opened ParquetFiles
  import opened Protocol

  /** Every record is filed under its own id and its object exists and is described by it. */
  ghost predicate RecordsHaveObjects(s: State) {
    forall id :: id in s.catalog ==> RecordOk(s, id, s.catalog[id])
  }

  ghost predicate RecordOk(s: State, id: FileId, f: ParquetFile) {
    && f.id == id && id < s.nextFileId && f.objectStoreId in s.usedIds
    && Parquet(f.objectStoreId) in s.store
    && Describes(f.minTime, f.maxTime, s.store[Parquet(f.objectStoreId)].rows)
  }

  ghost predicate RecordsDiffer(s: State) {
    forall i, j :: i in s.catalog && j in s.catalog && i != j ==>
        s.catalog[i].objectStoreId != s.catalog[j].objectStoreId
  }

  /** `o` was uploaded by an ingester or a compaction that may still register it. */
  ghost predicate MayRegister(s: State, o: ObjectId, stored: Object) {
    || (o in s.pending && s.pending[o] == stored)
    || (s.job.Running? && o in s.job.uploads && s.job.uploads[o].stored == stored)
  }

  ghost predicate UploadsOk(s: State) {
    s.job.Running? ==>
      forall o :: o in s.job.uploads ==>
        var u := s.job.uploads[o];
        o !in s.pending && Describes(u.minTime, u.maxTime, u.stored.rows)
  }

  /** An object that may still be registered is unreferenced and, until the grace period is over, there. */
  ghost predicate UnregisteredOk(cfg: Config, s: State) {
    forall o, stored :: MayRegister(s, o, stored) ==>
      && o in s.usedIds && o !in s.doomed && !Referenced(s.catalog, o)
      && (Parquet(o) in s.store ==> s.store[Parquet(o)] == stored)
      && (s.now < stored.lastModified + cfg.grace ==> Parquet(o) in s.store)
  }

  ghost predicate IdsUsed(s: State) {
    && (forall o :: Parquet(o) in s.store ==> o in s.usedIds)
    && (forall o :: o in s.doomed ==> o in s.usedIds && !Referenced(s.catalog, o))
  }

  /** An item in a channel belongs to an object as it was uploaded. */
  ghost predicate ItemOk(s: State, item: ObjectMeta) {
    item.location.Parquet? ==>
      && item.location.objectId in s.usedIds
      && forall stored :: MayRegister(s, item.location.objectId, stored) ==> stored.lastModified == item.lastModified
  }

  /** An item scheduled for deletion is unreferenced and past its grace period. */
  ghost predicate DeletionOk(cfg: Config, s: State, item: ObjectMeta) {
    && item.lastModified + cfg.grace <= s.now
    && (item.location.Parquet? ==> !Referenced(s.catalog, item.location.objectId))
  }

  ghost predicate ChannelsOk(cfg: Config, s: State) {
    && s.cutoff + cfg.grace <= s.now
    && (forall item :: item in s.toCheck ==> ItemOk(s, item))
    && (forall item :: item in s.toDelete ==> ItemOk(s, item) && DeletionOk(cfg, s, item))
  }

  ghost predicate ObjectsOk(cfg: Config, s: State) {
    && RecordsHaveObjects(s) && RecordsDiffer(s) && UploadsOk(s) && UnregisteredOk(cfg, s)
    && IdsUsed(s) && ChannelsOk(cfg, s)
  }

  lemma InitObjects(cfg: Config, s: State)
    requires Init(cfg, s)
    ensures ObjectsOk(cfg, s)
  {
  }

  /** Steps that leave the catalog, the parquet objects and the channels alone keep the invariant. */
  lemma QuietStep(cfg: Config, s: State, s': State)
    requires ObjectsOk(cfg, s)
    requires s'.catalog == s.catalog && s'.nextFileId == s.nextFileId && s'.usedIds == s.usedIds
             && s'.doomed == s.doomed
    requires s'.cutoff == s.cutoff && s'.toCheck == s.toCheck && s'.toDelete == s.toDelete && s.now <= s'.now
    requires forall o :: Parquet(o) in s'.store <==> Parquet(o) in s.store
    requires forall o :: Parquet(o) in s.store ==> s'.store[Parquet(o)] == s.store[Parquet(o)]
    requires forall o, stored :: MayRegister(s', o, stored) ==> MayRegister(s, o, stored)
    requires UploadsOk(s')
    ensures ObjectsOk(cfg, s')
  {
    hide Describes;
    assert forall id :: id in s.catalog ==> RecordOk(s, id, s.catalog[id]);
  }

  lemma UploadKeepsObjects(cfg: Config, s: State, s': State, o: ObjectId, stored: Object)
    requires ObjectsOk(cfg, s) && o !in s.usedIds
    requires s'.catalog == s.catalog && s'.nextFileId == s.nextFileId && s'.usedIds == s.usedIds + {o}
             && s'.doomed == s.doomed
    requires s'.cutoff == s.cutoff && s'.toCheck == s.toCheck && s'.toDelete == s.toDelete && s.now == s'.now
    requires s'.store == s.store[Parquet(o) := stored]
    requires forall p, q :: MayRegister(s', p, q) ==> MayRegister(s, p, q) || (p == o && q == stored)
    requires UploadsOk(s')
    ensures ObjectsOk(cfg, s')
  {
    hide Describes;
    assert forall id :: id in s.catalog ==> RecordOk(s, id, s.catalog[id]);
    assert !Referenced(s.catalog, o);
  }

  lemma QuietStepKeepsObjects(cfg: Config, s: State, step: Step)
    requires ObjectsOk(cfg, s) && Enabled(cfg, s, step)
    requires step.Tick? || step.PutForeign? || step.IngestCrash? || step.SelectHot? || step.SelectCold?
             || step.Plan? || step.Abort?
    ensures ObjectsOk(cfg, Apply(cfg, s, step))
  {
    hide Describes;
    QuietStep(cfg, s, Apply(cfg, s, step));
  }

  lemma UploadStepKeepsObjects(cfg: Config, s: State, step: Step)
    requires ObjectsOk(cfg, s) && Enabled(cfg, s, step)
    requires step.IngestUpload? || step.UploadStream?
    ensures ObjectsOk(cfg, Apply(cfg, s, step))
  {
    hide Describes;
    var stored := if step.IngestUpload? then Object(step.rows, s.now) else step.upload.stored;
    UploadKeepsObjects(cfg, s, Apply(cfg, s, step), step.objectId, stored);
  }

  lemma RegisterKeepsObjects(cfg: Config, s: State, step: Step)
    requires ObjectsOk(cfg, s) && Enabled(cfg, s, step) && Timely(cfg, s, step) && step.IngestRegister?
    ensures ObjectsOk(cfg, Apply(cfg, s, step))
  {
    hide Describes;
    var s' := Apply(cfg, s, step);
    var o := step.objectId;
    assert MayRegister(s, o, s.pending[o]);
    assert forall id :: id in s.catalog ==> RecordOk(s, id, s.catalog[id]);
    assert forall p, q :: MayRegister(s', p, q) ==> MayRegister(s, p, q) && p != o;
    forall p | Referenced(s'.catalog, p) && p != o ensures Referenced(s.catalog, p) {
      var id :| id in s'.catalog && s'.catalog[id].objectStoreId == p;
      assert id in s.catalog;
    }
  }

  lemma CleanupCatalogKeepsObjects(cfg: Config, s: State, step: Step)
    requires ObjectsOk(cfg, s) && Enabled(cfg, s, step) && step.CleanupCatalog?
    ensures ObjectsOk(cfg, Apply(cfg, s, step))
  {
    hide Describes;
    var s' := Apply(cfg, s, step);
    assert forall id :: id in s.catalog ==> RecordOk(s, id, s.catalog[id]);
    assert forall p, q :: MayRegister(s', p, q) <==> MayRegister(s, p, q);
    forall p | Referenced(s'.catalog, p) ensures Referenced(s.catalog, p) {
      var id :| id in s'.catalog && s'.catalog[id].objectStoreId == p;
      assert id in s.catalog;
    }
    forall o | o in s'.doomed && o !in s.doomed ensures Referenced(s.catalog, o) && !Referenced(s'.catalog, o) {
      var id :| id in Removed(s.catalog, step.olderThan) && s.catalog[id].objectStoreId == o;
    }
  }

  lemma CleanupObjectKeepsObjects(cfg: Config, s: State, step: Step)
    requires ObjectsOk(cfg, s) && Enabled(cfg, s, step) && step.CleanupObject?
    ensures ObjectsOk(cfg, Apply(cfg, s, step))
  {
    hide Describes;
    var s' := Apply(cfg, s, step);
    assert forall id :: id in s.catalog ==> RecordOk(s, id, s.catalog[id]);
    assert !Referenced(s.catalog, step.objectId);
    assert forall p, q :: MayRegister(s', p, q) <==> MayRegister(s, p, q);
  }

  lemma CollectorKeepsObjects(cfg: Config, s: State, step: Step)
    requires ObjectsOk(cfg, s) && Enabled(cfg, s, step)
    requires step.GcStart? || step.GcList? || step.GcCheck?
    ensures ObjectsOk(cfg, Apply(cfg, s, step))
  {
    hide Describes;
    var s' := Apply(cfg, s, step);
    assert forall id :: id in s.catalog ==> RecordOk(s, id, s.catalog[id]);
    assert forall p, q :: MayRegister(s', p, q) <==> MayRegister(s, p, q);
    assert forall item :: ItemOk(s, item) ==> ItemOk(s', item);
    assert step.GcCheck? ==> ItemOk(s, s.toCheck[0]);
  }

  lemma GcDeleteKeepsObjects(cfg: Config, s: State, step: Step)
    requires ObjectsOk(cfg, s) && Enabled(cfg, s, step) && step.GcDelete?
    ensures ObjectsOk(cfg, Apply(cfg, s, step))
  {
    hide Describes;
    var s' := Apply(cfg, s, step);
    var item := s.toDelete[0];
    assert ItemOk(s, item) && DeletionOk(cfg, s, item);
    assert forall id :: id in s.catalog ==> RecordOk(s, id, s.catalog[id]);
    assert forall p, q :: MayRegister(s', p, q) <==> MayRegister(s, p, q);
    forall other | other in s'.toDelete ensures ItemOk(s', other) && DeletionOk(cfg, s', other) {
      assert other in s.toDelete;
    }
    assert forall other :: ItemOk(s, other) ==> ItemOk(s', other);
  }

  lemma UpgradeKeepsObjects(cfg: Config, s: State, step: Step)
    requires ObjectsOk(cfg, s) && Enabled(cfg, s, step) && step.Upgrade?
    ensures ObjectsOk(cfg, Apply(cfg, s, step))
  {
    hide Describes;
    var s' := Apply(cfg, s, step);
    assert forall id :: id in s.catalog ==> RecordOk(s, id, s.catalog[id]);
    assert forall p, q :: MayRegister(s', p, q) ==> MayRegister(s, p, q);
    forall p ensures Referenced(s'.catalog, p) ==> Referenced(s.catalog, p) {
      if Referenced(s'.catalog, p) {
        var id :| id in s'.catalog && s'.catalog[id].objectStoreId == p;
        assert id in s.catalog && s.catalog[id].objectStoreId == p;
      }
    }
  }

  /** The catalog after a commit, record by record: an old record keeps its object, a new one is the
      output of the stream its id counts to. */
  lemma CommittedRecord(s: State, outputs: seq<ObjectId>, id: FileId)
    requires RecordsHaveObjects(s) && CanCommit(s, outputs)
    requires id in Committed(s, outputs).catalog
    ensures id in s.catalog <==> id < s.nextFileId
    ensures var f := Committed(s, outputs).catalog[id];
            if id in s.catalog then
              f == if id in Ids(s.job.files) then s.catalog[id].(toDelete := Some(s.now)) else s.catalog[id]
            else
              && id < s.nextFileId + |outputs|
              && outputs[id - s.nextFileId] in s.job.uploads
              && s.job.uploads[outputs[id - s.nextFileId]].stream == id - s.nextFileId
              && var o := outputs[id - s.nextFileId];
                 f == OutputFile(id, o, s.job.uploads[o], MaxSequence(s.job.files))
  {
    assert id in s.catalog ==> RecordOk(s, id, s.catalog[id]);
  }

  lemma CommitReferences(s: State, outputs: seq<ObjectId>, p: ObjectId)
    requires RecordsHaveObjects(s) && CanCommit(s, outputs)
    requires Referenced(Committed(s, outputs).catalog, p)
    ensures Referenced(s.catalog, p) || p in s.job.uploads
  {
    var s' := Committed(s, outputs);
    var id :| id in s'.catalog && s'.catalog[id].objectStoreId == p;
    CommittedRecord(s, outputs, id);
    if id in s.catalog {
      assert s.catalog[id].objectStoreId == p;
    }
  }

  lemma CommitKeepsRecord(cfg: Config, s: State, outputs: seq<ObjectId>, id: FileId)
    requires ObjectsOk(cfg, s) && CanCommit(s, outputs) && OutputsTimely(cfg, s)
    requires id in Committed(s, outputs).catalog
    ensures RecordOk(Committed(s, outputs), id, Committed(s, outputs).catalog[id])
  {
    hide Describes;
    CommittedRecord(s, outputs, id);
    if id in s.catalog {
      assert RecordOk(s, id, s.catalog[id]);
    } else {
      var o := outputs[id - s.nextFileId];
      assert MayRegister(s, o, s.job.uploads[o].stored);
    }
  }

  lemma CommitKeepsRecordsApart(cfg: Config, s: State, outputs: seq<ObjectId>, i: FileId, j: FileId)
    requires ObjectsOk(cfg, s) && CanCommit(s, outputs)
    requires i in Committed(s, outputs).catalog && j in Committed(s, outputs).catalog && i < j
    ensures Committed(s, outputs).catalog[i].objectStoreId != Committed(s, outputs).catalog[j].objectStoreId
  {
    hide Describes;
    CommittedRecord(s, outputs, i);
    CommittedRecord(s, outputs, j);
    if i in s.catalog && j !in s.catalog {
      var o := outputs[j - s.nextFileId];
      assert MayRegister(s, o, s.job.uploads[o].stored);
      assert !Referenced(s.catalog, o);
    }
  }

  /** A record a commit adds is for an object its own compaction uploaded. */
  lemma CommitNewReference(cfg: Config, s: State, outputs: seq<ObjectId>, p: ObjectId)
    requires ObjectsOk(cfg, s) && CanCommit(s, outputs)
    requires Referenced(Committed(s, outputs).catalog, p) && !Referenced(s.catalog, p)
    ensures p in s.job.uploads && MayRegister(s, p, s.job.uploads[p].stored) && p !in s.pending
  {
    hide Describes, Committed;
    CommitReferences(s, outputs, p);
  }

  lemma CommitKeepsUnregistered(cfg: Config, s: State, outputs: seq<ObjectId>)
    requires ObjectsOk(cfg, s) && CanCommit(s, outputs)
    ensures UnregisteredOk(cfg, Committed(s, outputs)) && IdsUsed(Committed(s, outputs))
  {
    hide Describes, CommitCatalog, Referenced, ChannelsOk;
    var s' := Committed(s, outputs);
    forall p, q | MayRegister(s', p, q) ensures MayRegister(s, p, q) && !Referenced(s'.catalog, p) {
      if Referenced(s'.catalog, p) && !Referenced(s.catalog, p) {
        CommitNewReference(cfg, s, outputs, p);
      }
    }
    forall p | p in s.doomed ensures !Referenced(s'.catalog, p) {
      if Referenced(s'.catalog, p) && !Referenced(s.catalog, p) {
        CommitNewReference(cfg, s, outputs, p);
      }
    }
  }

  lemma CommitKeepsChannels(cfg: Config, s: State, outputs: seq<ObjectId>)
    requires ObjectsOk(cfg, s) && CanCommit(s, outputs) && OutputsTimely(cfg, s)
    ensures ChannelsOk(cfg, Committed(s, outputs))
  {
    hide Describes, CommitCatalog, Referenced;
    var s' := Committed(s, outputs);
    assert forall p, q :: MayRegister(s', p, q) ==> MayRegister(s, p, q);
    assert forall item :: ItemOk(s, item) ==> ItemOk(s', item);
    forall item | item in s'.toDelete ensures DeletionOk(cfg, s', item) {
      assert ItemOk(s, item) && DeletionOk(cfg, s, item);
      if item.location.Parquet? && Referenced(s'.catalog, item.location.objectId) {
        CommitNewReference(cfg, s, outputs, item.location.objectId);
      }
    }
  }

  lemma CommitKeepsObjects(cfg: Config, s: State, outputs: seq<ObjectId>)
    requires ObjectsOk(cfg, s) && CanCommit(s, outputs) && OutputsTimely(cfg, s)
    ensures ObjectsOk(cfg, Committed(s, outputs))
  {
    hide Describes, CommitCatalog, UnregisteredOk, IdsUsed, ChannelsOk, RecordOk;
    var s' := Committed(s, outputs);
    forall id | id in s'.catalog ensures RecordOk(s', id, s'.catalog[id]) {
      CommitKeepsRecord(cfg, s, outputs, id);
    }
    forall i, j | i in s'.catalog && j in s'.catalog && i < j
      ensures s'.catalog[i].objectStoreId != s'.catalog[j].objectStoreId
    {
      CommitKeepsRecordsApart(cfg, s, outputs, i, j);
    }
    CommitKeepsUnregistered(cfg, s, outputs);
    CommitKeepsChannels(cfg, s, outputs);
  }

  /** Every timely step keeps the invariant. */
  lemma StepKeepsObjects(cfg: Config, s: State, step: Step)
    requires ObjectsOk(cfg, s) && Enabled(cfg, s, step) && Timely(cfg, s, step)
    ensures ObjectsOk(cfg, Apply(cfg, s, step))
  {
    hide Describes;
    match step
    case IngestUpload(_, _) => UploadStepKeepsObjects(cfg, s, step);
    case UploadStream(_, _) => UploadStepKeepsObjects(cfg, s, step);
    case IngestRegister(_, _, _, _, _) => RegisterKeepsObjects(cfg, s, step);
    case Commit(outputs) => CommitKeepsObjects(cfg, s, outputs);
    case Upgrade => UpgradeKeepsObjects(cfg, s, step);
    case CleanupCatalog(_) => CleanupCatalogKeepsObjects(cfg, s, step);
    case CleanupObject(_, _) => CleanupObjectKeepsObjects(cfg, s, step);
    case GcStart(_) => CollectorKeepsObjects(cfg, s, step);
    case GcList(_) => CollectorKeepsObjects(cfg, s, step);
    case GcCheck => CollectorKeepsObjects(cfg, s, step);
    case GcDelete(_) => GcDeleteKeepsObjects(cfg, s, step);
    case _ => QuietStepKeepsObjects(cfg, s, step);
  }
}
