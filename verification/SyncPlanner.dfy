/** Manifests and the push planner of the one-way sync (`plan_push`, `_detect_remote_conflicts`). */
module SyncPlanner {
  import opened Model
  import opened PathStrings

  datatype FileRecord = FileRecord(sha256: Digest, size: nat)

  /** The files of a `SyncManifest`. */
  type Files = map<string, FileRecord>

  datatype Upload = Upload(path: string, sha256: Digest, size: nat)

  datatype Reason = NotInLastPushed | RemoteDeleted | RemoteChanged

  datatype Conflict = Conflict(path: string, reason: Reason)

  datatype Plan = Plan(uploads: seq<Upload>, deletes: seq<string>, same: seq<string>, conflicts: seq<Conflict>)

  function DigestAt(files: Files, path: string): Option<Digest> {
    if path in files then Some(files[path].sha256) else None
  }

  /** The path-to-hash map of a manifest. */
  function Digests(files: Files): map<string, Digest> {
    map p | p in files :: files[p].sha256
  }

  function Previous(lastPushed: Option<Files>): Files {
    if lastPushed.Some? then lastPushed.value else map[]
  }

  function UploadPaths(uploads: seq<Upload>): seq<string> {
    seq(|uploads|, i requires 0 <= i < |uploads| => uploads[i].path)
  }

  function ConflictPaths(conflicts: seq<Conflict>): seq<string> {
    seq(|conflicts|, i requires 0 <= i < |conflicts| => conflicts[i].path)
  }

  /** What a conflict says: how the remote differs from the last pushed state at its path. */
  predicate Justified(c: Conflict, lastPushed: Files, remote: Files) {
    match c.reason
    case NotInLastPushed => c.path !in lastPushed && c.path in remote
    case RemoteDeleted => c.path in lastPushed && c.path !in remote
    case RemoteChanged =>
      c.path in lastPushed && c.path in remote && DigestAt(lastPushed, c.path) != DigestAt(remote, c.path)
  }

  /** The conflicts are exactly the paths at which the hashes differ, in order, each with its reason. */
  ghost predicate AreConflicts(conflicts: seq<Conflict>, lastPushed: Files, remote: Files) {
    && Ascending(ConflictPaths(conflicts))
    && (forall c :: c in conflicts ==> Justified(c, lastPushed, remote))
    && (forall p :: DigestAt(lastPushed, p) != DigestAt(remote, p) ==> p in ConflictPaths(conflicts))
  }

  /** What uploads and deletes a conflict-free plan holds. */
  ghost predicate IsPlan(plan: Plan, local: Files, previous: Files, deleteRemote: bool) {
    && plan.conflicts == []
    && Ascending(plan.same) && Ascending(UploadPaths(plan.uploads)) && Ascending(plan.deletes)
    && (forall p :: p in plan.same <==> p in local && DigestAt(previous, p) == DigestAt(local, p))
    && (forall u :: u in plan.uploads <==>
          && u.path in local && local[u.path] == FileRecord(u.sha256, u.size)
          && DigestAt(previous, u.path) != DigestAt(local, u.path))
    && (forall p :: p in plan.deletes <==> deleteRemote && p in previous && p !in local)
  }

  function UploadOf(local: Files, path: string): Upload
    requires path in local
  {
    Upload(path, local[path].sha256, local[path].size)
  }

  method DetectRemoteConflicts(lastPushed: Files, remote: Option<Files>) returns (conflicts: seq<Conflict>)
    ensures remote.None? ==> conflicts == []
    ensures remote.Some? ==> AreConflicts(conflicts, lastPushed, remote.value)
  {
    conflicts := [];
    if remote.None? { return; }
    var paths := Sorted(lastPushed.Keys + remote.value.Keys);
    for k := 0 to |paths|
      invariant forall c :: c in conflicts ==> c.path in paths[..k] && Justified(c, lastPushed, remote.value)
      invariant Ascending(ConflictPaths(conflicts))
      invariant forall p :: p in paths[..k] && DigestAt(lastPushed, p) != DigestAt(remote.value, p) ==>
                  p in ConflictPaths(conflicts)
    {
      var path := paths[k];
      var old_, current := DigestAt(lastPushed, path), DigestAt(remote.value, path);
      var found := conflicts;
      if old_ == None && current != None {
        found := conflicts + [Conflict(path, NotInLastPushed)];
      } else if old_ != None && current == None {
        found := conflicts + [Conflict(path, RemoteDeleted)];
      } else if old_ != current {
        found := conflicts + [Conflict(path, RemoteChanged)];
      }
      ConflictAdded(conflicts, found, paths, k);
      conflicts := found;
    }
    assert paths[..|paths|] == paths;
  }

  lemma ConflictAdded(conflicts: seq<Conflict>, found: seq<Conflict>, paths: seq<string>, k: nat)
    requires Ascending(paths) && k < |paths|
    requires forall c :: c in conflicts ==> c.path in paths[..k]
    requires Ascending(ConflictPaths(conflicts))
    requires found == conflicts || (exists c: Conflict :: c.path == paths[k] && found == conflicts + [c])
    ensures Ascending(ConflictPaths(found))
    ensures ConflictPaths(conflicts) <= ConflictPaths(found)
    ensures found != conflicts ==> paths[k] in ConflictPaths(found)
    ensures paths[..k + 1] == paths[..k] + [paths[k]]
  {
    if found != conflicts {
      assert ConflictPaths(found) == ConflictPaths(conflicts) + [paths[k]];
      SnocAscending(ConflictPaths(conflicts), paths, k);
    }
  }

  lemma SnocAscending(s: seq<string>, paths: seq<string>, k: nat)
    requires Ascending(paths) && k < |paths| && Ascending(s)
    requires forall p :: p in s ==> p in paths[..k]
    ensures Ascending(s + [paths[k]])
  {
    forall i | 0 <= i < |s| ensures Less(s[i], paths[k]) {
      assert s[i] in paths[..k];
    }
  }

  /** `conflicts` are empty exactly when the two hash maps are equal. */
  lemma NoConflictsIff(conflicts: seq<Conflict>, lastPushed: Files, remote: Files)
    requires AreConflicts(conflicts, lastPushed, remote)
    ensures conflicts == [] <==> Digests(lastPushed) == Digests(remote)
    ensures forall p :: p in ConflictPaths(conflicts) <==> DigestAt(lastPushed, p) != DigestAt(remote, p)
  {
    forall p | p in ConflictPaths(conflicts) ensures DigestAt(lastPushed, p) != DigestAt(remote, p) {
      var i :| 0 <= i < |conflicts| && ConflictPaths(conflicts)[i] == p;
      assert Justified(conflicts[i], lastPushed, remote);
    }
    if conflicts == [] {
      forall p ensures DigestAt(lastPushed, p) == DigestAt(remote, p) {
        assert p !in ConflictPaths(conflicts);
      }
      assert forall p :: p in Digests(lastPushed) ==> DigestAt(lastPushed, p) == DigestAt(remote, p);
      assert forall p :: p in Digests(remote) ==> DigestAt(lastPushed, p) == DigestAt(remote, p);
    } else {
      var p := ConflictPaths(conflicts)[0];
      assert p in ConflictPaths(conflicts);
      assert DigestAt(lastPushed, p) != DigestAt(remote, p);
      assert p in Digests(lastPushed) <==> p in lastPushed;
      assert p in Digests(remote) <==> p in remote;
    }
  }

  /** `plan_push`. */
  method PlanPush(local: Files, lastPushed: Option<Files>, remote: Option<Files>, deleteRemote: bool)
    returns (plan: Plan)
    ensures plan.conflicts == [] <==> remote == None || Digests(remote.value) == Digests(Previous(lastPushed))
    ensures plan.conflicts != [] ==>
              && plan.uploads == [] && plan.deletes == [] && plan.same == []
              && AreConflicts(plan.conflicts, Previous(lastPushed), remote.value)
    ensures plan.conflicts == [] ==> IsPlan(plan, local, Previous(lastPushed), deleteRemote)
  {
    var previous := Previous(lastPushed);
    var conflicts := DetectRemoteConflicts(previous, remote);
    if remote.Some? {
      NoConflictsIff(conflicts, previous, remote.value);
    }
    if conflicts != [] {
      return Plan([], [], [], conflicts);
    }
    var uploads, same := Compare(local, previous);
    var deletes := [];
    if deleteRemote {
      deletes := Sorted(previous.Keys - local.Keys);
    }
    plan := Plan(uploads, deletes, same, []);
  }

  /** The loop over the sorted local files. */
  method Compare(local: Files, previous: Files) returns (uploads: seq<Upload>, same: seq<string>)
    ensures IsPlan(Plan(uploads, [], same, []), local, previous, false)
  {
    uploads, same := [], [];
    var paths := Sorted(local.Keys);
    for k := 0 to |paths|
      invariant Ascending(same) && Ascending(UploadPaths(uploads))
      invariant forall p :: p in same <==> p in paths[..k] && DigestAt(previous, p) == DigestAt(local, p)
      invariant forall u :: u in uploads <==>
                  u.path in paths[..k] && u.path in local && DigestAt(previous, u.path) != DigestAt(local, u.path) &&
                      u == UploadOf(local, u.path)
    {
      var path := paths[k];
      assert path in local && path !in paths[..k] by { NotBefore(paths, k); }
      assert paths[..k + 1] == paths[..k] + [path];
      var previousRecord := DigestAt(previous, path);
      if previousRecord != None && previousRecord == Some(local[path].sha256) {
        SnocAscending(same, paths, k);
        same := same + [path];
      } else {
        var upload := Upload(path, local[path].sha256, local[path].size);
        forall p | p in UploadPaths(uploads) ensures p in paths[..k] { PathOfUpload(uploads, p); }
        SnocAscending(UploadPaths(uploads), paths, k);
        assert UploadPaths(uploads + [upload]) == UploadPaths(uploads) + [path];
        uploads := uploads + [upload];
      }
    }
    assert paths[..|paths|] == paths;
  }

  lemma NotBefore(paths: seq<string>, k: nat)
    requires Ascending(paths) && k < |paths|
    ensures paths[k] !in paths[..k]
  {
    LessIsTotal(paths[k], paths[k]);
  }

  lemma PathOfUpload(uploads: seq<Upload>, p: string)
    requires p in UploadPaths(uploads)
    ensures exists u :: u in uploads && u.path == p
  {
    var i :| 0 <= i < |uploads| && UploadPaths(uploads)[i] == p;
    assert uploads[i] in uploads;
  }

  /** Uploading and then deleting, on a path-to-hash map. */
  function AfterUploads(files: map<string, Digest>, uploads: seq<Upload>): map<string, Digest> {
    if uploads == [] then files
    else
      var last := uploads[|uploads| - 1];
      AfterUploads(files, uploads[..|uploads| - 1])[last.path := last.sha256]
  }

  function AfterDeletes(files: map<string, Digest>, deletes: seq<string>): map<string, Digest> {
    if deletes == [] then files else AfterDeletes(files, deletes[..|deletes| - 1]) - {deletes[|deletes| - 1]}
  }

  function Patched(files: map<string, Digest>, plan: Plan): map<string, Digest> {
    AfterDeletes(AfterUploads(files, plan.uploads), plan.deletes)
  }

  /** The patch law: a plan turns the last pushed map into the local one, or, when nothing is deleted, into
      the last pushed map overridden by the local one. */
  lemma PlanIsThePatch(plan: Plan, local: Files, previous: Files, deleteRemote: bool)
    requires IsPlan(plan, local, previous, deleteRemote)
    ensures Patched(Digests(previous), plan) ==
            if deleteRemote then Digests(local) else Digests(previous) + Digests(local)
  {
    var patched := Patched(Digests(previous), plan);
    PlanPartitionsLocal(plan, local, previous, deleteRemote);
    forall p ensures p in patched <==> p in local || (p in previous && !deleteRemote)
             ensures p in patched ==> patched[p] == (if p in local then local[p] else previous[p]).sha256 {
      UploadsAt(Digests(previous), plan.uploads, local, p);
      DeletesAt(AfterUploads(Digests(previous), plan.uploads), plan.deletes, p);
    }
  }

  lemma {:induction false} UploadsAt(files: map<string, Digest>, uploads: seq<Upload>, local: Files, p: string)
    requires forall u :: u in uploads ==> u.path in local && u.sha256 == local[u.path].sha256
    ensures var after := AfterUploads(files, uploads);
            && (p in after <==> p in files || p in UploadPaths(uploads))
            && (p in UploadPaths(uploads) ==> p in local && after[p] == local[p].sha256)
            && (p in files && p !in UploadPaths(uploads) ==> after[p] == files[p])
  {
    if uploads != [] {
      var front, last := uploads[..|uploads| - 1], uploads[|uploads| - 1];
      assert last in uploads && forall u :: u in front ==> u in uploads;
      UploadsAt(files, front, local, p);
      assert UploadPaths(uploads) == UploadPaths(front) + [last.path];
    }
  }

  lemma {:induction false} DeletesAt(files: map<string, Digest>, deletes: seq<string>, p: string)
    ensures var after := AfterDeletes(files, deletes);
            (p in after <==> p in files && p !in deletes) && (p in after ==> after[p] == files[p])
  {
    if deletes != [] {
      DeletesAt(files, deletes[..|deletes| - 1], p);
      assert deletes == deletes[..|deletes| - 1] + [deletes[|deletes| - 1]];
    }
  }

  /** Uploads and unchanged paths partition the local paths. */
  lemma PlanPartitionsLocal(plan: Plan, local: Files, previous: Files, deleteRemote: bool)
    requires IsPlan(plan, local, previous, deleteRemote)
    ensures forall p :: p in local <==> p in plan.same || p in UploadPaths(plan.uploads)
    ensures forall p :: !(p in plan.same && p in UploadPaths(plan.uploads))
  {
    forall p | p in UploadPaths(plan.uploads) ensures p in local && p !in plan.same {
      PathOfUpload(plan.uploads, p);
    }
    forall p | p in local && p !in plan.same ensures p in UploadPaths(plan.uploads) {
      UploadHasPath(plan.uploads, UploadOf(local, p));
    }
  }

  lemma UploadHasPath(uploads: seq<Upload>, u: Upload)
    requires u in uploads
    ensures u.path in UploadPaths(uploads)
  {
    var i :| 0 <= i < |uploads| && uploads[i] == u;
    assert UploadPaths(uploads)[i] == u.path;
  }

  /** There is only one such plan. */
  lemma PlanIsDetermined(a: Plan, b: Plan, local: Files, previous: Files, deleteRemote: bool)
    requires IsPlan(a, local, previous, deleteRemote) && IsPlan(b, local, previous, deleteRemote)
    ensures a == b
  {
    SortedIsUnique(a.same, b.same);
    SortedIsUnique(a.deletes, b.deletes);
    PlanPartitionsLocal(a, local, previous, deleteRemote);
    PlanPartitionsLocal(b, local, previous, deleteRemote);
    SortedIsUnique(UploadPaths(a.uploads), UploadPaths(b.uploads));
    assert |a.uploads| == |UploadPaths(a.uploads)| == |b.uploads|;
    forall i | 0 <= i < |a.uploads| ensures a.uploads[i] == b.uploads[i] {
      assert UploadPaths(a.uploads)[i] == UploadPaths(b.uploads)[i];
      assert a.uploads[i] in a.uploads && b.uploads[i] in b.uploads;
    }
  }
}
