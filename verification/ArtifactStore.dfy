/**
 Artifact rows and their blobs under concurrent uploads and deletes that may crash anywhere.
 A storage key is 32 random bytes; here it is the number of the upload that drew it, so keys
 never repeat, and a row is named by its key.
 */
module ArtifactStore {
  type Bytes = seq<bv8>

  /** A blob's published place, and the temporary file Save fills first. */
  datatype Path = Final(key: nat) | Temp(key: nat)

  datatype Task =
    | Writing(copied: nat)      // Save: copying into the temporary file
    | Renaming                  // Save: synced and closed, about to publish
    | Saved                     // upload: Save returned, size not yet checked
    | Inserting                 // upload: small enough, about to insert the row
    | Discarding                // upload: about to delete the blob it saved
    | RemovingRow(key: nat)     // delete: artifact read, about to delete the row
    | RemovingBlob(key: nat)    // delete: row gone, about to delete the blob
    | Done

  datatype Store = Store(
    maxBytes: nat,
    files: map<Path, Bytes>,
    rows: set<nat>,
    tasks: seq<Task>,
    contents: seq<Bytes>)       // what the client of each upload is sending

  datatype Action =
    | UploadBegin(content: Bytes)
    | Copy(t: nat, copied: nat)
    | CopyDone(t: nat)
    | SaveFails(t: nat)
    | Publish(t: nat, dirSynced: bool)
    | CheckSize(t: nat)
    | Insert(t: nat, stored: bool, ok: bool)
    | Discard(t: nat, removed: bool)
    | DeleteBegin(key: nat)
    | RemoveRow(t: nat, removed: bool, ok: bool)
    | RemoveBlob(t: nat, removed: bool)
    | Crash(t: nat)

  function Empty(maxBytes: nat): Store {
    Store(maxBytes, map[], {}, [], [])
  }

  /** The upload reads one byte past the cap, enough to tell an oversized stream. */
  function Kept(maxBytes: nat, content: Bytes): Bytes {
    if |content| <= maxBytes + 1 then content else content[..maxBytes + 1]
  }

  predicate At(s: Store, t: nat) {
    t < |s.tasks| && t < |s.contents|
  }

  predicate Enabled(s: Store, a: Action) {
    match a
    case UploadBegin(_) => true
    case Copy(t, copied) =>
      At(s, t) && s.tasks[t].Writing? && s.tasks[t].copied <= copied <= |Kept(s.maxBytes, s.contents[t])|
    case CopyDone(t) => At(s, t) && s.tasks[t] == Writing(|Kept(s.maxBytes, s.contents[t])|)
    case SaveFails(t) => At(s, t) && (s.tasks[t].Writing? || s.tasks[t].Renaming?)
    case Publish(t, _) => At(s, t) && s.tasks[t].Renaming? && Temp(t) in s.files
    case CheckSize(t) => At(s, t) && s.tasks[t].Saved?
    case Insert(t, stored, ok) => At(s, t) && s.tasks[t].Inserting? && (ok ==> stored)
    case Discard(t, _) => At(s, t) && s.tasks[t].Discarding?
    case DeleteBegin(key) => key in s.rows
    case RemoveRow(t, removed, ok) =>
      At(s, t) && s.tasks[t].RemovingRow? && (removed ==> s.tasks[t].key in s.rows) && (ok ==> removed)
    case RemoveBlob(t, _) => At(s, t) && s.tasks[t].RemovingBlob?
    case Crash(t) => At(s, t)
  }

  function Goto(s: Store, t: nat, task: Task): Store
    requires t < |s.tasks|
  {
    s.(tasks := s.tasks[t := task])
  }

  function Unlink(s: Store, path: Path, removed: bool): Store {
    if removed then s.(files := s.files - {path}) else s
  }

  function Step(s: Store, a: Action): Store
    requires Enabled(s, a)
  {
    match a
    case UploadBegin(content) =>
      s.(tasks := s.tasks + [Writing(0)], contents := s.contents + [content],
         files := s.files[Temp(|s.tasks|) := []])
    case Copy(t, copied) =>
      Goto(s.(files := s.files[Temp(t) := s.contents[t][..copied]]), t, Writing(copied))
    case CopyDone(t) => Goto(s, t, Renaming)
    case SaveFails(t) => Goto(Unlink(s, Temp(t), true), t, Done)
    case Publish(t, dirSynced) =>
      var published := s.(files := (s.files - {Temp(t)})[Final(t) := s.files[Temp(t)]]);
      Goto(published, t, if dirSynced then Saved else Done)
    case CheckSize(t) =>
      Goto(s, t, if |Kept(s.maxBytes, s.contents[t])| > s.maxBytes then Discarding else Inserting)
    case Insert(t, stored, ok) =>
      Goto(s.(rows := if stored then s.rows + {t} else s.rows), t, if ok then Done else Discarding)
    case Discard(t, removed) => Goto(Unlink(s, Final(t), removed), t, Done)
    case DeleteBegin(key) => s.(tasks := s.tasks + [RemovingRow(key)], contents := s.contents + [[]])
    case RemoveRow(t, removed, ok) =>
      var key := s.tasks[t].key;
      Goto(s.(rows := if removed then s.rows - {key} else s.rows), t, if ok then RemovingBlob(key) else Done)
    case RemoveBlob(t, removed) => Goto(Unlink(s, Final(s.tasks[t].key), removed), t, Done)
    case Crash(t) => Goto(s, t, Done)
  }

  /** Every row's blob exists, is the whole upload, and respects the cap. */
  ghost predicate Consistent(s: Store) {
    forall k :: k in s.rows ==>
      && k < |s.contents|
      && Final(k) in s.files
      && s.files[Final(k)] == s.contents[k]
      && |s.contents[k]| <= s.maxBytes
  }

  /** What each call knows about its own files at each of its steps. */
  predicate TaskOk(s: Store, t: nat)
    requires At(s, t)
  {
    match s.tasks[t]
    case Writing(copied) =>
      && copied <= |Kept(s.maxBytes, s.contents[t])|
      && Temp(t) in s.files && s.files[Temp(t)] == s.contents[t][..copied]
      && t !in s.rows
    case Renaming =>
      Temp(t) in s.files && s.files[Temp(t)] == Kept(s.maxBytes, s.contents[t]) && t !in s.rows
    case Saved => Final(t) in s.files && s.files[Final(t)] == Kept(s.maxBytes, s.contents[t]) && t !in s.rows
    case Inserting =>
      && Final(t) in s.files && s.files[Final(t)] == s.contents[t]
      && |s.contents[t]| <= s.maxBytes
      && t !in s.rows
    case RemovingRow(key) => key < |s.tasks| && Finished(s.tasks[key]) && t !in s.rows
    case RemovingBlob(key) => key < |s.tasks| && Finished(s.tasks[key]) && key !in s.rows && t !in s.rows
    case _ => true
  }

  /** An upload that will not insert its row any more. */
  predicate Finished(task: Task) {
    task.Done? || task.Discarding?
  }

  ghost predicate Shape(s: Store) {
    && |s.tasks| == |s.contents|
    && (forall t: nat :: t < |s.tasks| ==> TaskOk(s, t))
    && (forall k :: k in s.rows ==> k < |s.tasks| && Finished(s.tasks[k]))
  }

  /** The one step that breaks a row: the cleanup after a failed insert deletes the blob of a
      row which that insert had stored after all. */
  predicate DeletesStoredBlob(s: Store, a: Action) {
    a.Discard? && a.removed && a.t in s.rows
  }

  /** The acting call moves on as Save, upload and delete prescribe. */
  lemma ActorMovesOn(s: Store, a: Action)
    requires Shape(s) && Enabled(s, a) && !a.UploadBegin? && !a.DeleteBegin?
    ensures TaskOk(Step(s, a), a.t)
  {
    assert TaskOk(s, a.t);
  }

  /** No call but t itself touches t's temporary file; its blob and its row go only once its
      upload has finished. */
  lemma OthersFilesStay(s: Store, a: Action, t: nat)
    requires Shape(s) && Enabled(s, a) && t < |s.tasks| && !Finished(s.tasks[t])
    requires a.UploadBegin? || a.DeleteBegin? || t != a.t
    ensures var s' := Step(s, a);
            && (Temp(t) in s.files ==> Temp(t) in s'.files && s'.files[Temp(t)] == s.files[Temp(t)])
            && (Final(t) in s.files ==> Final(t) in s'.files && s'.files[Final(t)] == s.files[Final(t)])
  {
    assert !a.UploadBegin? && !a.DeleteBegin? ==> TaskOk(s, a.t);
  }

  lemma RowsAppearOnlyByInsert(s: Store, a: Action, k: nat)
    requires Shape(s) && Enabled(s, a) && k !in s.rows && k in Step(s, a).rows
    ensures a.Insert? && a.t == k && k < |s.tasks| && s.tasks[k].Inserting?
  {
  }

  /** A step of one call disturbs no other call. */
  lemma OthersUndisturbed(s: Store, a: Action, t: nat)
    requires Shape(s) && Enabled(s, a) && t < |s.tasks|
    requires a.UploadBegin? || a.DeleteBegin? || t != a.t
    ensures TaskOk(Step(s, a), t)
  {
    var s' := Step(s, a);
    assert TaskOk(s, t);
    assert s'.tasks[t] == s.tasks[t] && s'.contents[t] == s.contents[t] && s'.maxBytes == s.maxBytes;
    if !Finished(s.tasks[t]) {
      OthersFilesStay(s, a, t);
      if t !in s.rows && t in s'.rows {
        RowsAppearOnlyByInsert(s, a, t);
      }
    }
    if s.tasks[t].RemovingRow? || s.tasks[t].RemovingBlob? {
      var key := s.tasks[t].key;
      assert TaskOk(s, key) && Finished(s'.tasks[key]);
      if key !in s.rows && key in s'.rows {
        RowsAppearOnlyByInsert(s, a, key);
      }
    }
  }

  lemma StepKeepsShape(s: Store, a: Action)
    requires Shape(s) && Enabled(s, a)
    ensures Shape(Step(s, a))
  {
    var s' := Step(s, a);
    forall t: nat | t < |s'.tasks| ensures TaskOk(s', t) {
      if t < |s.tasks| {
        if a.UploadBegin? || a.DeleteBegin? || t != a.t {
          OthersUndisturbed(s, a, t);
        } else {
          ActorMovesOn(s, a);
        }
      }
    }
  }

  /** A step keeps every row whole if and only if it is not that one. */
  lemma ConsistentIff(s: Store, a: Action)
    requires Shape(s) && Consistent(s) && Enabled(s, a)
    ensures Consistent(Step(s, a)) <==> !DeletesStoredBlob(s, a)
  {
    var s' := Step(s, a);
    assert !a.UploadBegin? && !a.DeleteBegin? ==> TaskOk(s, a.t);
    if DeletesStoredBlob(s, a) {
      assert a.t in s'.rows && Final(a.t) !in s'.files;
    }
  }

  // ---------- runs ----------

  predicate Run(s: Store, acts: seq<Action>)
    decreases |acts|
  {
    acts == [] || (Enabled(s, acts[0]) && Run(Step(s, acts[0]), acts[1..]))
  }

  function Exec(s: Store, acts: seq<Action>): Store
    requires Run(s, acts)
    decreases |acts|
  {
    if acts == [] then s else Exec(Step(s, acts[0]), acts[1..])
  }

  ghost predicate AlwaysConsistent(s: Store, acts: seq<Action>)
    requires Run(s, acts)
    decreases |acts|
  {
    Consistent(s) && (acts == [] || AlwaysConsistent(Step(s, acts[0]), acts[1..]))
  }

  predicate NeverDeletesStored(s: Store, acts: seq<Action>)
    requires Run(s, acts)
    decreases |acts|
  {
    acts == [] || (!DeletesStoredBlob(s, acts[0]) && NeverDeletesStored(Step(s, acts[0]), acts[1..]))
  }

  lemma {:induction false} AlwaysConsistentFrom(s: Store, acts: seq<Action>)
    requires Shape(s) && Consistent(s) && Run(s, acts)
    ensures AlwaysConsistent(s, acts) <==> NeverDeletesStored(s, acts)
    decreases |acts|
  {
    if acts != [] {
      StepKeepsShape(s, acts[0]);
      ConsistentIff(s, acts[0]);
      if !DeletesStoredBlob(s, acts[0]) {
        AlwaysConsistentFrom(Step(s, acts[0]), acts[1..]);
      }
    }
  }

  /** At every step and crash point of any interleaving, each row's blob is there, whole and
      within the cap, if and only if no cleanup follows an insert that stored its row. */
  lemma RowsKeepTheirBlobsIff(maxBytes: nat, acts: seq<Action>)
    requires Run(Empty(maxBytes), acts)
    ensures AlwaysConsistent(Empty(maxBytes), acts) <==> NeverDeletesStored(Empty(maxBytes), acts)
  {
    AlwaysConsistentFrom(Empty(maxBytes), acts);
  }

  /** The database answers an insert truthfully: an error means no row. */
  predicate TruthfulInserts(acts: seq<Action>) {
    forall i :: 0 <= i < |acts| && acts[i].Insert? ==> acts[i].stored == acts[i].ok
  }

  predicate DiscardsHaveNoRow(s: Store) {
    forall t: nat :: t < |s.tasks| && s.tasks[t].Discarding? ==> t !in s.rows
  }

  lemma {:induction false} TruthfulNeverDeletesStored(s: Store, acts: seq<Action>)
    requires Shape(s) && DiscardsHaveNoRow(s) && Run(s, acts) && TruthfulInserts(acts)
    ensures NeverDeletesStored(s, acts)
    decreases |acts|
  {
    if acts != [] {
      var s' := Step(s, acts[0]);
      StepKeepsShape(s, acts[0]);
      forall t: nat | t < |s'.tasks| && s'.tasks[t].Discarding? ensures t !in s'.rows {
        assert t < |s.tasks| ==> TaskOk(s, t);
      }
      TruthfulNeverDeletesStored(s', acts[1..]);
    }
  }

  /** With truthful inserts every run keeps every row whole. */
  lemma RowsKeepTheirBlobs(maxBytes: nat, acts: seq<Action>)
    requires Run(Empty(maxBytes), acts) && TruthfulInserts(acts)
    ensures AlwaysConsistent(Empty(maxBytes), acts)
  {
    TruthfulNeverDeletesStored(Empty(maxBytes), acts);
    AlwaysConsistentFrom(Empty(maxBytes), acts);
  }

  // ---------- calls that nobody disturbs ----------

  lemma RunOne(s: Store, a: Action, rest: seq<Action>)
    requires Enabled(s, a) && Run(Step(s, a), rest)
    ensures Run(s, [a] + rest) && Exec(s, [a] + rest) == Exec(Step(s, a), rest)
  {
    assert ([a] + rest)[0] == a && ([a] + rest)[1..] == rest;
  }

  /** The store with one more call, which has come to its end. */
  function WithCall(s: Store, content: Bytes): Store {
    s.(tasks := s.tasks + [Done], contents := s.contents + [content])
  }

  /** An upload of anything up to the cap, with nobody interfering and no error: exactly its whole
      blob and its row are new. */
  lemma UploadStores(s: Store, content: Bytes) returns (acts: seq<Action>)
    requires |s.tasks| == |s.contents| && |content| <= s.maxBytes
    requires Temp(|s.tasks|) !in s.files
    ensures Run(s, acts)
    ensures Exec(s, acts) == WithCall(s, content).(files := s.files[Final(|s.tasks|) := content],
                                                   rows := s.rows + {|s.tasks|})
  {
    var t := |s.tasks|;
    var saved, more := Saves(s, content);
    var checked := Step(saved, CheckSize(t));
    var stored := Step(checked, Insert(t, true, true));
    assert Exec(stored, []) == stored;
    RunOne(checked, Insert(t, true, true), []);
    RunOne(saved, CheckSize(t), [Insert(t, true, true)] + []);
    acts := more + ([CheckSize(t)] + ([Insert(t, true, true)] + []));
    RunsJoin(s, more, [CheckSize(t)] + ([Insert(t, true, true)] + []));
    assert content[..|content|] == content;
    assert stored.tasks == s.tasks + [Done];
    assert stored.files == s.files[Final(t) := content];
  }

  /** An upload beyond the cap leaves no file and no row behind. */
  lemma OversizedLeavesNothing(s: Store, content: Bytes) returns (acts: seq<Action>)
    requires |s.tasks| == |s.contents| && |content| > s.maxBytes
    requires Temp(|s.tasks|) !in s.files && Final(|s.tasks|) !in s.files
    ensures Run(s, acts) && Exec(s, acts) == WithCall(s, content)
  {
    var t := |s.tasks|;
    var saved, more := Saves(s, content);
    var checked := Step(saved, CheckSize(t));
    var gone := Step(checked, Discard(t, true));
    assert Exec(gone, []) == gone;
    RunOne(checked, Discard(t, true), []);
    RunOne(saved, CheckSize(t), [Discard(t, true)] + []);
    acts := more + ([CheckSize(t)] + ([Discard(t, true)] + []));
    RunsJoin(s, more, [CheckSize(t)] + ([Discard(t, true)] + []));
    assert gone.tasks == s.tasks + [Done];
    assert gone.files == s.files;
  }

  /** So does one whose Save fails while it copies. */
  lemma FailedSaveLeavesNothing(s: Store, content: Bytes, copied: nat) returns (acts: seq<Action>)
    requires |s.tasks| == |s.contents| && copied <= |Kept(s.maxBytes, content)|
    requires Temp(|s.tasks|) !in s.files
    ensures Run(s, acts) && Exec(s, acts) == WithCall(s, content)
  {
    var t := |s.tasks|;
    var begun := Step(s, UploadBegin(content));
    var copying := Step(begun, Copy(t, copied));
    var failed := Step(copying, SaveFails(t));
    assert Exec(failed, []) == failed;
    RunOne(copying, SaveFails(t), []);
    RunOne(begun, Copy(t, copied), [SaveFails(t)] + []);
    RunOne(s, UploadBegin(content), [Copy(t, copied)] + ([SaveFails(t)] + []));
    acts := [UploadBegin(content)] + ([Copy(t, copied)] + ([SaveFails(t)] + []));
    assert failed.tasks == s.tasks + [Done];
    assert failed.files == s.files;
  }

  /** A deletion takes exactly the row and its blob. */
  lemma DeleteRemoves(s: Store, key: nat) returns (acts: seq<Action>)
    requires |s.tasks| == |s.contents| && key in s.rows
    ensures Run(s, acts)
    ensures Exec(s, acts) == WithCall(s, []).(files := s.files - {Final(key)}, rows := s.rows - {key})
  {
    var t := |s.tasks|;
    var begun := Step(s, DeleteBegin(key));
    var rowless := Step(begun, RemoveRow(t, true, true));
    var gone := Step(rowless, RemoveBlob(t, true));
    assert Exec(gone, []) == gone;
    RunOne(rowless, RemoveBlob(t, true), []);
    RunOne(begun, RemoveRow(t, true, true), [RemoveBlob(t, true)] + []);
    RunOne(s, DeleteBegin(key), [RemoveRow(t, true, true)] + ([RemoveBlob(t, true)] + []));
    acts := [DeleteBegin(key)] + ([RemoveRow(t, true, true)] + ([RemoveBlob(t, true)] + []));
    assert gone.tasks == s.tasks + [Done];
  }

  /** Save, from the first byte to the renamed file. */
  lemma Saves(s: Store, content: Bytes) returns (saved: Store, acts: seq<Action>)
    requires |s.tasks| == |s.contents| && Temp(|s.tasks|) !in s.files
    ensures Run(s, acts) && Exec(s, acts) == saved
    ensures var kept := if |content| <= s.maxBytes then content else content[..s.maxBytes + 1];
            saved == s.(files := s.files[Final(|s.tasks|) := kept], tasks := s.tasks + [Saved],
                        contents := s.contents + [content])
  {
    var t := |s.tasks|;
    var n := |Kept(s.maxBytes, content)|;
    var begun := Step(s, UploadBegin(content));
    var copied := Step(begun, Copy(t, n));
    var synced := Step(copied, CopyDone(t));
    saved := Step(synced, Publish(t, true));
    assert Exec(saved, []) == saved;
    RunOne(synced, Publish(t, true), []);
    RunOne(copied, CopyDone(t), [Publish(t, true)] + []);
    RunOne(begun, Copy(t, n), [CopyDone(t)] + ([Publish(t, true)] + []));
    RunOne(s, UploadBegin(content), [Copy(t, n)] + ([CopyDone(t)] + ([Publish(t, true)] + [])));
    acts := [UploadBegin(content)] + ([Copy(t, n)] + ([CopyDone(t)] + ([Publish(t, true)] + [])));
    var kept := if |content| <= s.maxBytes then content else content[..s.maxBytes + 1];
    assert content[..n] == kept;
    assert saved.tasks == s.tasks + [Saved];
    assert saved.files == s.files[Final(t) := kept];
  }

  lemma {:induction false} RunsJoin(s: Store, xs: seq<Action>, ys: seq<Action>)
    requires Run(s, xs) && Run(Exec(s, xs), ys)
    ensures Run(s, xs + ys) && Exec(s, xs + ys) == Exec(Exec(s, xs), ys)
    decreases |xs|
  {
    if xs == [] {
      assert xs + ys == ys;
    } else {
      assert (xs + ys)[0] == xs[0] && (xs + ys)[1..] == xs[1..] + ys;
      RunsJoin(Step(s, xs[0]), xs[1..], ys);
    }
  }

  lemma Breaks(s: Store, a: Action, rest: seq<Action>)
    requires Enabled(s, a) && Run(Step(s, a), rest)
    requires DeletesStoredBlob(s, a) || !NeverDeletesStored(Step(s, a), rest)
    ensures Run(s, [a] + rest) && !NeverDeletesStored(s, [a] + rest)
  {
    assert ([a] + rest)[1..] == rest;
  }

  /** The run that breaks a row: the insert is stored, its answer is lost, and the cleanup
      deletes the blob. */
  lemma LostInsertAnswerDanglesRow(content: Bytes) returns (acts: seq<Action>)
    ensures Run(Empty(|content|), acts) && !AlwaysConsistent(Empty(|content|), acts)
  {
    var s0 := Empty(|content|);
    var s1 := Step(s0, UploadBegin(content));
    var s2 := Step(s1, Copy(0, |content|));
    var s3 := Step(s2, CopyDone(0));
    var s4 := Step(s3, Publish(0, true));
    var s5 := Step(s4, CheckSize(0));
    var s6 := Step(s5, Insert(0, true, false));
    assert [Discard(0, true)] + [] == [Discard(0, true)];
    Breaks(s6, Discard(0, true), []);
    Breaks(s5, Insert(0, true, false), [Discard(0, true)]);
    acts := [Insert(0, true, false)] + [Discard(0, true)];
    Breaks(s4, CheckSize(0), acts);
    acts := [CheckSize(0)] + acts;
    Breaks(s3, Publish(0, true), acts);
    acts := [Publish(0, true)] + acts;
    Breaks(s2, CopyDone(0), acts);
    acts := [CopyDone(0)] + acts;
    Breaks(s1, Copy(0, |content|), acts);
    acts := [Copy(0, |content|)] + acts;
    Breaks(s0, UploadBegin(content), acts);
    acts := [UploadBegin(content)] + acts;
    RowsKeepTheirBlobsIff(|content|, acts);
  }
}
