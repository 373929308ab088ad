/** The local blob store and the upload and delete operations as they run, one call at a time;
    ArtifactStore is about many of them interleaved and crashing. */
module ArtifactService {
  import opened Results
  import opened ArtifactStore

  /** Where the filesystem lets Save down. */
  datatype SaveFault =
    | NoFault
    | CreateFails
    | CopyFails(at: nat)
    | SyncFails
    | CloseFails
    | RenameFails
    | DirSyncFails

  datatype ServiceError = StorageFailed | TooLarge | DatabaseFailed | ArtifactNotFound

  class Local {
    var files: map<Path, Bytes>

    constructor ()
      ensures files == map[]
    {
      files := map[];
    }

    /** Write a temporary file, sync, close, rename, sync the directory. A failure leaves the
        files as they were, except that a failed directory sync leaves the new blob published. */
    method Save(key: nat, stream: Bytes, chunk: nat, fault: SaveFault) returns (r: Result<(), ServiceError>)
      requires Temp(key) !in files && chunk > 0
      modifies this
      ensures r.Success? ==> files == old(files)[Final(key) := stream]
      ensures r.Failure? && fault != DirSyncFails ==> files == old(files)
      ensures r.Failure? && fault == DirSyncFails ==> files == old(files)[Final(key) := stream]
      ensures r.Success? <==> fault == NoFault || (fault.CopyFails? && fault.at >= |stream|)
    {
      if fault == CreateFails {
        return Failure(StorageFailed);
      }
      files := files[Temp(key) := []];
      var copied := 0;
      while copied < |stream|
        invariant copied <= |stream|
        invariant files == old(files)[Temp(key) := stream[..copied]]
        invariant fault.CopyFails? ==> copied <= fault.at
      {
        var next := if copied + chunk < |stream| then copied + chunk else |stream|;
        if fault.CopyFails? && fault.at < next {
          files := files - {Temp(key)};
          return Failure(StorageFailed);
        }
        copied := next;
        files := files[Temp(key) := stream[..copied]];
      }
      assert stream[..copied] == stream;
      if fault == SyncFails || fault == CloseFails || fault == RenameFails {
        files := files - {Temp(key)};
        return Failure(StorageFailed);
      }
      files := (files - {Temp(key)})[Final(key) := files[Temp(key)]];
      if fault == DirSyncFails {
        return Failure(StorageFailed);
      }
      r := Success(());
    }

    /** A missing blob is not an error. */
    method Delete(key: nat, works: bool)
      modifies this
      ensures files == if works then old(files) - {Final(key)} else old(files)
    {
      if works {
        files := files - {Final(key)};
      }
    }
  }

  class Artifacts {
    const maxBytes: nat
    const storage: Local
    var rows: set<nat>
    /** what each upload was sent */
    ghost var sent: map<nat, Bytes>

    constructor (maxBytes: nat)
      ensures RowsWhole() && rows == {} && this.maxBytes == maxBytes
    {
      this.maxBytes := maxBytes;
      storage := new Local();
      rows, sent := {}, map[];
    }

    /** Every row's blob exists, is the whole upload, and respects the cap. */
    ghost predicate RowsWhole()
      reads this, storage
    {
      forall k :: k in rows ==>
        && k in sent && Final(k) in storage.files
        && storage.files[Final(k)] == sent[k] && |sent[k]| <= maxBytes
    }

    /** UploadArtifact: blob first, then the row; an oversized blob or a failed insert is cleaned
        up. `stored` and `ok` are what the insert did and what it answered. The rows stay whole
        exactly unless the cleanup deletes the blob of a row the insert had stored. */
    method UploadArtifact(key: nat, content: Bytes, chunk: nat, fault: SaveFault,
                          stored: bool, ok: bool, cleanupWorks: bool)
      returns (r: Result<nat, ServiceError>)
      requires key !in rows && Temp(key) !in storage.files && Final(key) !in storage.files
      requires chunk > 0 && (ok ==> stored)
      modifies this, storage
      ensures r.Success? ==> r.value == key && rows == old(rows) + {key} && |content| <= maxBytes
                             && storage.files == old(storage.files)[Final(key) := content]
      ensures r == Failure(TooLarge) ==> |content| > maxBytes && rows == old(rows)
      ensures r == Failure(TooLarge) && cleanupWorks ==> storage.files == old(storage.files)
      ensures r == Failure(StorageFailed) ==> rows == old(rows)
      ensures fault == NoFault && |content| <= maxBytes && ok ==> r.Success?
      ensures fault == NoFault && |content| > maxBytes ==> r == Failure(TooLarge)
      ensures fault == NoFault && |content| <= maxBytes && !ok ==>
                && r == Failure(DatabaseFailed)
                && rows == (if stored then old(rows) + {key} else old(rows))
                && storage.files == if cleanupWorks then old(storage.files)
                                    else old(storage.files)[Final(key) := content]
      ensures r == Failure(StorageFailed) && fault != DirSyncFails ==> storage.files == old(storage.files)
      ensures fault == DirSyncFails ==>
                && r == Failure(StorageFailed) && rows == old(rows)
                && storage.files == old(storage.files)[Final(key) := Kept(maxBytes, content)]
      ensures old(RowsWhole()) ==>
                (RowsWhole() <==> !(r == Failure(DatabaseFailed) && stored && cleanupWorks))
    {
      sent := sent[key := content];
      var limited := Kept(maxBytes, content);
      var saved := storage.Save(key, limited, chunk, fault);
      if saved.Failure? {
        return Failure(StorageFailed);
      }
      if |limited| > maxBytes {
        storage.Delete(key, cleanupWorks);
        return Failure(TooLarge);
      }
      if stored {
        rows := rows + {key};
      }
      if !ok {
        storage.Delete(key, cleanupWorks);
        assert stored ==> key in rows;
        return Failure(DatabaseFailed);
      }
      r := Success(key);
    }

    /** DeleteArtifact: the row goes first, so no failure can leave a row without its blob.
        `deleted` and `ok` are what the row's deletion did and what it answered; when it took
        effect and its answer was lost, the blob stays behind with no row. */
    method DeleteArtifact(key: nat, deleted: bool, ok: bool, removed: bool) returns (r: Result<(), ServiceError>)
      requires ok ==> deleted
      modifies this, storage
      ensures key !in old(rows) ==> r == Failure(ArtifactNotFound) && rows == old(rows)
                                    && storage.files == old(storage.files)
      ensures key in old(rows) ==> (r.Success? <==> ok) && (r.Failure? ==> r.error == DatabaseFailed)
      ensures rows == if deleted then old(rows) - {key} else old(rows)
      ensures storage.files == if r.Success? && removed then old(storage.files) - {Final(key)}
                               else old(storage.files)
      ensures old(RowsWhole()) ==> RowsWhole()
    {
      if key !in rows {
        return Failure(ArtifactNotFound);
      }
      if deleted {
        rows := rows - {key};
      }
      if !ok {
        return Failure(DatabaseFailed);
      }
      storage.Delete(key, removed);
      r := Success(());
    }
  }
}
