/** The sync engine (`push`, `push_file`) and the invariant that the saved manifest describes the remote. */
module SyncEngine {
  import opened Model
  import opened PathStrings
  import opened Paths
  import opened SyncPlanner
  import opened TextFiles

  datatype SkipReason = Ignored | TooLarge | Binary

  /** What is fixed for an engine.  `skips` stands for the scan's filters. */
  datatype Setup = Setup(remoteRoot: string, manifestPath: string, deleteRemote: bool,
                         skips: (string, string) -> Option<SkipReason>)

  type Tree = map<string, string>

  datatype Content = Text(text: string) | Json(files: Files)

  datatype World = World(remote: map<string, Content>, saved: Option<Files>)

  /** Where an exception stops a push: before (or while) writing the k-th upload, while writing the remote
      manifest, or before the state is saved.  `left` is what a write that fails leaves in its file, if it
      changed it. */
  datatype Failure = Never | AtUpload(k: nat, left: Option<Content>) | AtManifest(left: Option<Content>) | AtSave

  datatype Outcome = Pushed(uploaded: seq<string>) | Raised | Skipped(reason: SkipReason) | NotInManifest | BadPath

  function Scan(setup: Setup, tree: Tree): Files {
    map p | p in tree && setup.skips(p, tree[p]) == None :: FileRecord(Sha256(tree[p]), |tree[p]|)
  }

  function RemotePath(setup: Setup, relativePath: string): string {
    var root := Root(setup.remoteRoot);
    var normalized := Stripped(Slashed(relativePath));
    if normalized == "" then root
    else if root != "." then root + "/" + normalized
    else normalized
  }

  /** `_normalize_relative_sync_path`; `None` is the `ValueError`. */
  function NormalizeSyncPath(path: string): Option<string> {
    var normalized := Stripped(Slashed(path));
    if normalized == "" || ".." in Split(normalized) then None else Some(normalized)
  }

  /** The paths `plan_push` plans to upload, in order. */
  ghost function Pending(files: Files, saved: Option<Files>): (paths: seq<string>)
    ensures Ascending(paths)
    ensures forall p :: p in paths <==> p in files && DigestAt(Previous(saved), p) != DigestAt(files, p)
  {
    SortedSeq(set p | p in files && DigestAt(Previous(saved), p) != DigestAt(files, p))
  }

  lemma PendingIsPlanned(plan: Plan, files: Files, saved: Option<Files>, deleteRemote: bool)
    requires IsPlan(plan, files, Previous(saved), deleteRemote)
    ensures UploadPaths(plan.uploads) == Pending(files, saved)
  {
    PlanPartitionsLocal(plan, files, Previous(saved), deleteRemote);
    SortedIsUnique(UploadPaths(plan.uploads), Pending(files, saved));
  }

  /** The remote after uploading `paths`. */
  function Written(setup: Setup, remote: map<string, Content>, tree: Tree, paths: seq<string>): map<string, Content>
    requires forall p :: p in paths ==> p in tree
  {
    if paths == [] then remote
    else
      var last := paths[|paths| - 1];
      Written(setup, remote, tree, paths[..|paths| - 1])[RemotePath(setup, last) := Text(ReadText(tree[last]))]
  }

  function LeftBehind(remote: map<string, Content>, path: string, left: Option<Content>): map<string, Content> {
    if left.Some? then remote[path := left.value] else remote
  }

  predicate Completes(paths: seq<string>, failure: Failure) {
    failure == Never || (failure.AtUpload? && failure.k >= |paths|)
  }

  /** Uploading `paths`, writing the remote manifest and saving the scan, up to the failure. */
  function Transferred(setup: Setup, w: World, tree: Tree, paths: seq<string>, failure: Failure): World
    requires forall p :: p in paths ==> p in tree
  {
    if failure.AtUpload? && failure.k < |paths| then
      var written := Written(setup, w.remote, tree, paths[..failure.k]);
      World(LeftBehind(written, RemotePath(setup, paths[failure.k]), failure.left), w.saved)
    else
      var written := Written(setup, w.remote, tree, paths);
      var manifestAt := RemotePath(setup, setup.manifestPath);
      if failure.AtManifest? then World(LeftBehind(written, manifestAt, failure.left), w.saved)
      else
        var remote := written[manifestAt := Json(Scan(setup, tree))];
        World(remote, if failure == AtSave then w.saved else Some(Scan(setup, tree)))
  }

  ghost function AfterPush(setup: Setup, w: World, tree: Tree, failure: Failure): World {
    Transferred(setup, w, tree, Pending(Scan(setup, tree), w.saved), failure)
  }

  /** The uploads of `push_file(p)`, for a normalised path that was scanned. */
  ghost function PendingOnly(setup: Setup, w: World, tree: Tree, p: string): seq<string> {
    if p in Pending(Scan(setup, tree), w.saved) then [p] else []
  }

  ghost function AfterPushFile(setup: Setup, w: World, tree: Tree, path: string, failure: Failure): World {
    var p := NormalizeSyncPath(path);
    if p.Some? && p.value in Scan(setup, tree) then
      Transferred(setup, w, tree, PendingOnly(setup, w, tree, p.value), failure)
    else w
  }

  class Engine {
    const setup: Setup
    var local: Tree
    var remote: map<string, Content>
    var saved: Option<Files>

    constructor (setup: Setup, local: Tree, remote: map<string, Content>, saved: Option<Files>)
      ensures this.setup == setup && this.local == local && State() == World(remote, saved)
    {
      this.setup, this.local, this.remote, this.saved := setup, local, remote, saved;
    }

    function State(): World
      reads this
    {
      World(remote, saved)
    }

    /** Read the local file and write it; `ok` is false when something raised. */
    method UploadOne(path: string, fails: bool, left: Option<Content>) returns (ok: bool)
      requires path in local
      modifies this`remote
      ensures ok == !fails
      ensures remote == if ok then old(remote)[RemotePath(setup, path) := Text(ReadText(local[path]))]
                        else LeftBehind(old(remote), RemotePath(setup, path), left)
    {
      if fails {
        remote := LeftBehind(remote, RemotePath(setup, path), left);
      } else {
        remote := remote[RemotePath(setup, path) := Text(ReadText(local[path]))];
      }
      ok := !fails;
    }

    /** The upload loop. */
    method UploadAll(paths: seq<string>, failure: Failure) returns (ok: bool, uploaded: seq<string>)
      requires forall p :: p in paths ==> p in local
      modifies this`remote
      ensures ok <==> !(failure.AtUpload? && failure.k < |paths|)
      ensures ok ==> uploaded == paths && remote == Written(setup, old(remote), local, paths)
      ensures !ok ==> State() == Transferred(setup, old(State()), local, paths, failure)
    {
      uploaded := [];
      for i := 0 to |paths|
        invariant uploaded == paths[..i]
        invariant failure.AtUpload? ==> failure.k >= i
        invariant remote == Written(setup, old(remote), local, paths[..i])
      {
        assert paths[..i + 1][..i] == paths[..i];
        var fails := failure.AtUpload? && failure.k == i;
        ok := UploadOne(paths[i], fails, if fails then failure.left else None);
        if !ok { return; }
        uploaded := uploaded + [paths[i]];
      }
      assert paths[..|paths|] == paths;
      ok := true;
    }

    /** What `push` and `push_file` do once they know what to upload. */
    method Transfer(paths: seq<string>, failure: Failure) returns (outcome: Outcome)
      requires forall p :: p in paths ==> p in local
      modifies this`remote, this`saved
      ensures State() == Transferred(setup, old(State()), local, paths, failure)
      ensures outcome == if Completes(paths, failure) then Pushed(paths) else Raised
    {
      var ok, uploaded := UploadAll(paths, failure);
      if !ok { return Raised; }
      var manifestAt := RemotePath(setup, setup.manifestPath);
      if failure.AtManifest? {
        remote := LeftBehind(remote, manifestAt, failure.left);
        return Raised;
      }
      remote := remote[manifestAt := Json(Scan(setup, local))];
      if failure == AtSave { return Raised; }
      saved := Some(Scan(setup, local));
      outcome := Pushed(uploaded);
    }

    method Push(failure: Failure) returns (outcome: Outcome)
      modifies this`remote, this`saved
      ensures State() == AfterPush(setup, old(State()), local, failure)
      ensures var paths := Pending(Scan(setup, local), old(saved));
              outcome == if Completes(paths, failure) then Pushed(paths) else Raised
    {
      var scan := Scan(setup, local);
      var plan := PlanPush(scan, saved, None, setup.deleteRemote);
      PendingIsPlanned(plan, scan, saved, setup.deleteRemote);
      outcome := Transfer(UploadPaths(plan.uploads), failure);
    }

    method PushFile(relativePath: string, failure: Failure) returns (outcome: Outcome)
      modifies this`remote, this`saved
      ensures State() == AfterPushFile(setup, old(State()), local, relativePath, failure)
      ensures match NormalizeSyncPath(relativePath)
              case None => outcome == BadPath
              case Some(p) =>
                if p !in local then outcome == NotInManifest
                else if setup.skips(p, local[p]).Some? then outcome == Skipped(setup.skips(p, local[p]).value)
                else
                  var paths := PendingOnly(setup, old(State()), local, p);
                  outcome == if Completes(paths, failure) then Pushed(paths) else Raised
    {
      var normalized := NormalizeSyncPath(relativePath);
      if normalized == None { return BadPath; }
      var requested := normalized.value;
      var scan := Scan(setup, local);
      var plan := PlanPush(scan, saved, None, setup.deleteRemote);
      PendingIsPlanned(plan, scan, saved, setup.deleteRemote);
      if requested in local && setup.skips(requested, local[requested]).Some? {
        return Skipped(setup.skips(requested, local[requested]).value);
      }
      if requested !in scan { return NotInManifest; }
      var chosen := if requested in UploadPaths(plan.uploads) then [requested] else [];
      outcome := Transfer(chosen, failure);
    }
  }
}
