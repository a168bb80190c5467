/** Identity model versions: an append-only log numbered `max + 1` per
    (model set, model type) partition, written only by the model set's owner. */
module IdentityVersions {
  import opened Base
  import opened Schema

  /** Error messages, as raised and audited. */
  const ModelSetMissing: string := "ModelSet not found; cannot create identity version."
  const ModelSetForeign: string := "ModelSet does not belong to user; cannot create identity version."

  predicate InPartition(v: IdentityModelVersion, modelSetId: Id, modelType: IdentityModelType) {
    v.modelSetId == modelSetId && v.modelType == modelType
  }

  /** `findFirst({ where: { modelSetId, type }, orderBy: { version: "desc" } })`:
      a row of the partition with the highest version (the latest such row
      when several share it). */
  function LatestVersionRow(versions: seq<IdentityModelVersion>, modelSetId: Id, modelType: IdentityModelType)
    : (r: Option<IdentityModelVersion>)
    ensures r.None? <==> forall j :: 0 <= j < |versions| ==> !InPartition(versions[j], modelSetId, modelType)
    ensures r.Some? ==> InPartition(r.value, modelSetId, modelType) &&
                        exists i :: 0 <= i < |versions| && versions[i] == r.value
    ensures r.Some? ==> forall j :: 0 <= j < |versions| && InPartition(versions[j], modelSetId, modelType) ==>
                                      versions[j].version <= r.value.version
  {
    if |versions| == 0 then None
    else
      var front := versions[..|versions| - 1];
      var last := versions[|versions| - 1];
      var rest := LatestVersionRow(front, modelSetId, modelType);
      assert forall j :: 0 <= j < |front| ==> front[j] == versions[j];
      if !InPartition(last, modelSetId, modelType) then rest
      else if rest.None? || rest.value.version <= last.version then Some(last)
      else rest
  }

  /** `(last?.version ?? 0) + 1` */
  function NextVersion(versions: seq<IdentityModelVersion>, modelSetId: Id, modelType: IdentityModelType): (n: int)
    ensures forall j :: 0 <= j < |versions| && InPartition(versions[j], modelSetId, modelType) ==> versions[j].version < n
    ensures (forall j :: 0 <= j < |versions| ==> !InPartition(versions[j], modelSetId, modelType)) ==> n == 1
  {
    match LatestVersionRow(versions, modelSetId, modelType)
    case None => 1
    case Some(last) => last.version + 1
  }

  /** Number of rows in a partition. */
  function PartitionCount(versions: seq<IdentityModelVersion>, modelSetId: Id, modelType: IdentityModelType): nat {
    if |versions| == 0 then 0
    else PartitionCount(versions[..|versions| - 1], modelSetId, modelType)
         + (if InPartition(versions[|versions| - 1], modelSetId, modelType) then 1 else 0)
  }

  /** The version numbers of a partition's rows, in creation order. */
  function PartitionVersions(versions: seq<IdentityModelVersion>, modelSetId: Id, modelType: IdentityModelType): seq<int> {
    if |versions| == 0 then []
    else PartitionVersions(versions[..|versions| - 1], modelSetId, modelType)
         + (if InPartition(versions[|versions| - 1], modelSetId, modelType) then [versions[|versions| - 1].version] else [])
  }

  /** Invariant of the log: each row's number is one more than the number of
      earlier rows in its partition. */
  ghost predicate VersionsDense(versions: seq<IdentityModelVersion>) {
    forall i :: 0 <= i < |versions| ==>
      versions[i].version == PartitionCount(versions[..i], versions[i].modelSetId, versions[i].modelType) + 1
  }

  lemma DensePrefix(versions: seq<IdentityModelVersion>)
    requires |versions| > 0 && VersionsDense(versions)
    ensures VersionsDense(versions[..|versions| - 1])
  {
    var front := versions[..|versions| - 1];
    forall i | 0 <= i < |front|
      ensures front[i].version == PartitionCount(front[..i], front[i].modelSetId, front[i].modelType) + 1
    {
      assert front[..i] == versions[..i];
    }
  }

  /** On a dense log the next number of a partition is its row count + 1. */
  lemma {:induction false} DenseNext(versions: seq<IdentityModelVersion>, modelSetId: Id, modelType: IdentityModelType)
    requires VersionsDense(versions)
    ensures NextVersion(versions, modelSetId, modelType) == PartitionCount(versions, modelSetId, modelType) + 1
  {
    if |versions| > 0 {
      var front := versions[..|versions| - 1];
      DensePrefix(versions);
      DenseNext(front, modelSetId, modelType);
      assert versions[..|versions| - 1] == front;
    }
  }

  /** Appending a row numbered by NextVersion keeps the log dense. */
  lemma DenseAppend(versions: seq<IdentityModelVersion>, row: IdentityModelVersion)
    requires VersionsDense(versions)
    requires row.version == NextVersion(versions, row.modelSetId, row.modelType)
    ensures VersionsDense(versions + [row])
  {
    DenseNext(versions, row.modelSetId, row.modelType);
    var t := versions + [row];
    forall i | 0 <= i < |t|
      ensures t[i].version == PartitionCount(t[..i], t[i].modelSetId, t[i].modelType) + 1
    {
      if i < |versions| {
        assert t[..i] == versions[..i];
      } else {
        assert t[..i] == versions;
      }
    }
  }

  /** On a dense log the numbers of any partition are exactly 1..n in order. */
  lemma {:induction false} DensePartitionIsOneToN(versions: seq<IdentityModelVersion>, modelSetId: Id, modelType: IdentityModelType)
    requires VersionsDense(versions)
    ensures |PartitionVersions(versions, modelSetId, modelType)| == PartitionCount(versions, modelSetId, modelType)
    ensures forall k :: 0 <= k < |PartitionVersions(versions, modelSetId, modelType)| ==>
                          PartitionVersions(versions, modelSetId, modelType)[k] == k + 1
  {
    if |versions| > 0 {
      var front := versions[..|versions| - 1];
      DensePrefix(versions);
      DensePartitionIsOneToN(front, modelSetId, modelType);
      assert versions[..|versions| - 1] == front;
    }
  }

  /** A row of one partition changes neither the next number nor the latest
      row of another: counters of different types or sets are independent. */
  lemma PartitionsIndependent(versions: seq<IdentityModelVersion>, row: IdentityModelVersion,
                              modelSetId: Id, modelType: IdentityModelType)
    requires !InPartition(row, modelSetId, modelType)
    ensures LatestVersionRow(versions + [row], modelSetId, modelType) == LatestVersionRow(versions, modelSetId, modelType)
    ensures NextVersion(versions + [row], modelSetId, modelType) == NextVersion(versions, modelSetId, modelType)
  {
    assert (versions + [row])[..|versions|] == versions;
  }

  /** The row just created is what `getLatestVersion` then returns. */
  lemma CreatedIsLatest(versions: seq<IdentityModelVersion>, newId: Id, userId: Id, modelSetId: Id,
                        modelType: IdentityModelType, payload: string)
    ensures var row := IdentityModelVersion(newId, userId, modelSetId, modelType, NextVersion(versions, modelSetId, modelType), payload);
            LatestVersionRow(versions + [row], modelSetId, modelType) == Some(row)
  {
    var row := IdentityModelVersion(newId, userId, modelSetId, modelType, NextVersion(versions, modelSetId, modelType), payload);
    assert (versions + [row])[..|versions|] == versions;
  }

  function IdentityBlockEvent(userId: Id, reason: string, modelSetId: Id, modelType: IdentityModelType): AuditEvent {
    AuditEvent(Some(userId), None, MUTATION_BLOCKED, IdentityMeta(Some(modelSetId), Some(modelType), None, None, Some(reason)))
  }

  function VersionCreatedEvent(row: IdentityModelVersion): AuditEvent {
    AuditEvent(Some(row.userId), None, IDENTITY_VERSION_CREATED,
               IdentityMeta(Some(row.modelSetId), Some(row.modelType), Some(row.id), Some(row.version), None))
  }

  /** `createVersion`: ownership first (blocked calls audit and raise with
      nothing appended), then exactly one row numbered `max + 1` and one
      IDENTITY_VERSION_CREATED audit carrying its id and number. `newId` is
      the id the database assigns to the created row. */
  method CreateVersion(db: Db, newId: Id, userId: Id, modelSetId: Id, modelType: IdentityModelType, payload: string)
    returns (r: Outcome<IdentityModelVersion>)
    modifies db`versions, db`audit
    ensures modelSetId !in db.modelSets ==>
      && r == Err(ModelSetMissing)
      && db.versions == old(db.versions)
      && db.audit == old(db.audit) + [IdentityBlockEvent(userId, r.message, modelSetId, modelType)]
    ensures modelSetId in db.modelSets && db.modelSets[modelSetId].userId != userId ==>
      && r == Err(ModelSetForeign)
      && db.versions == old(db.versions)
      && db.audit == old(db.audit) + [IdentityBlockEvent(userId, r.message, modelSetId, modelType)]
    ensures r.Ok? <==> modelSetId in db.modelSets && db.modelSets[modelSetId].userId == userId
    ensures r.Ok? ==>
      && r.value == IdentityModelVersion(newId, userId, modelSetId, modelType, NextVersion(old(db.versions), modelSetId, modelType), payload)
      && db.versions == old(db.versions) + [r.value]
      && db.audit == old(db.audit) + [VersionCreatedEvent(r.value)]
      && db.audit[|db.audit| - 1].meta.versionId == Some(newId)
      && db.audit[|db.audit| - 1].meta.versionNumber == Some(r.value.version)
    ensures old(VersionsDense(db.versions)) ==> VersionsDense(db.versions)
  {
    if modelSetId !in db.modelSets {
      r := Err(ModelSetMissing);
      db.audit := db.audit + [IdentityBlockEvent(userId, r.message, modelSetId, modelType)];
      return;
    }
    if db.modelSets[modelSetId].userId != userId {
      r := Err(ModelSetForeign);
      db.audit := db.audit + [IdentityBlockEvent(userId, r.message, modelSetId, modelType)];
      return;
    }
    var last := LatestVersionRow(db.versions, modelSetId, modelType);
    var nextVersion := (if last.Some? then last.value.version else 0) + 1;
    var created := IdentityModelVersion(newId, userId, modelSetId, modelType, nextVersion, payload);
    if VersionsDense(db.versions) {
      DenseAppend(db.versions, created);
    }
    db.versions := db.versions + [created];
    db.audit := db.audit + [VersionCreatedEvent(created)];
    r := Ok(created);
  }

  /** `getLatestVersion`: null for a missing or foreign model set, otherwise
      the highest-numbered row of the partition. */
  function GetLatestVersion(modelSets: map<Id, ModelSet>, versions: seq<IdentityModelVersion>, userId: Id,
                            modelSetId: Id, modelType: IdentityModelType): (r: Option<IdentityModelVersion>)
    ensures (modelSetId !in modelSets || modelSets[modelSetId].userId != userId) ==> r.None?
    ensures r.Some? ==> InPartition(r.value, modelSetId, modelType) &&
                        exists i :: 0 <= i < |versions| && versions[i] == r.value
    ensures r.Some? ==> forall j :: 0 <= j < |versions| && InPartition(versions[j], modelSetId, modelType) ==>
                                      versions[j].version <= r.value.version
    ensures modelSetId in modelSets && modelSets[modelSetId].userId == userId ==>
              (r.None? <==> forall j :: 0 <= j < |versions| ==> !InPartition(versions[j], modelSetId, modelType))
  {
    if modelSetId !in modelSets then None
    else if modelSets[modelSetId].userId != userId then None
    else LatestVersionRow(versions, modelSetId, modelType)
  }
}
