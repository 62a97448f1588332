/** When the saved manifest describes the remote, over any run of pushes that complete or fail. */
module SyncMirror {
  import opened Model
  import opened PathStrings
  import opened Paths
  import opened SyncPlanner
  import opened SyncEngine
  import opened TextFiles

  /** Paths as the scan yields them, none containing a backslash and none being the remote manifest's. */
  predicate Clean(setup: Setup, p: string) {
    p != "" && p != "." && Stripped(p) == p && '\\' !in p && p != Stripped(Slashed(setup.manifestPath))
  }

  predicate CleanFiles(setup: Setup, files: Files) {
    forall p :: p in files ==> Clean(setup, p)
  }

  /** What `remote_path` makes of a name before it puts the root in front. */
  function Name(path: string): string {
    Stripped(Slashed(path))
  }

  /** Two paths are kept in one remote file if and only if their names agree, once backslashes are slashes and
      the slashes around them are gone (or, under the root `.`, one is empty and the other is `.`). */
  lemma SameRemotePathIff(setup: Setup, p: string, q: string)
    ensures RemotePath(setup, p) == RemotePath(setup, q) <==>
              || Name(p) == Name(q)
              || (Root(setup.remoteRoot) == "." && {Name(p), Name(q)} == {"", "."})
  {
    NameIn(setup, p);
    NameIn(setup, q);
  }

  /** The name can be read off the remote path. */
  lemma NameIn(setup: Setup, p: string)
    ensures var root, path := Root(setup.remoteRoot), RemotePath(setup, p);
            if Name(p) == "" then path == root
            else if root == "." then path == Name(p)
            else |path| > |root| && Name(p) == path[|root| + 1..]
  {
    var root := Root(setup.remoteRoot);
    if Name(p) != "" && root != "." {
      assert (root + "/" + Name(p))[|root| + 1..] == Name(p);
    }
  }

  /** So clean paths go to different remote paths, and none to the manifest's. */
  lemma RemotePathInjective(setup: Setup, p: string, q: string)
    requires Clean(setup, p)
    ensures Clean(setup, q) ==> (RemotePath(setup, p) == RemotePath(setup, q) <==> p == q)
    ensures RemotePath(setup, p) != RemotePath(setup, setup.manifestPath)
  {
    SameRemotePathIff(setup, p, q);
    SameRemotePathIff(setup, p, setup.manifestPath);
  }

  /** Two scanned names that are kept in one remote file. */
  lemma BackslashNamesCollide(setup: Setup)
    ensures RemotePath(setup, "a\\b") == RemotePath(setup, "a/b")
  {
    assert Slashed("a\\b") == "a/b" && Slashed("a/b") == "a/b";
  }

  /** The remote file of `p` holds the pushed form of `bytes`. */
  predicate Holds(setup: Setup, remote: map<string, Content>, p: string, bytes: string) {
    RemotePath(setup, p) in remote && remote[RemotePath(setup, p)] == Text(ReadText(bytes))
  }

  predicate MirroredAt(setup: Setup, w: World, p: string) {
    p in Previous(w.saved) ==> Holds(setup, w.remote, p, Previous(w.saved)[p].sha256.text)
  }

  /** The saved manifest describes the remote, except perhaps at the paths in `stale`. */
  ghost predicate MirrorOutside(setup: Setup, w: World, stale: set<string>) {
    forall p :: p !in stale ==> MirroredAt(setup, w, p)
  }

  ghost predicate Mirror(setup: Setup, w: World) {
    MirrorOutside(setup, w, {})
  }

  lemma {:induction false} WrittenAt(setup: Setup, remote: map<string, Content>, tree: Tree, paths: seq<string>,
                                     p: string)
    requires forall q :: q in paths ==> q in tree && Clean(setup, q)
    ensures var written := Written(setup, remote, tree, paths);
            && (p in paths ==> Holds(setup, written, p, tree[p]))
            && (forall r :: (forall q :: q in paths ==> r != RemotePath(setup, q)) ==>
                  (r in written <==> r in remote) && (r in remote ==> written[r] == remote[r]))
  {
    if paths != [] {
      var front, last := paths[..|paths| - 1], paths[|paths| - 1];
      assert paths == front + [last];
      WrittenAt(setup, remote, tree, front, p);
      RemotePathInjective(setup, last, p);
    }
  }

  /** The file of `p` is untouched. */
  predicate SameAt(setup: Setup, before: map<string, Content>, after: map<string, Content>, p: string) {
    var r := RemotePath(setup, p);
    (r in before <==> r in after) && (r in before ==> before[r] == after[r])
  }

  /** The uploads that were started. */
  function Attempted(paths: seq<string>, failure: Failure): seq<string> {
    if failure.AtUpload? && failure.k < |paths| then paths[..failure.k + 1] else paths
  }

  predicate CleanPaths(setup: Setup, tree: Tree, paths: seq<string>) {
    forall p :: p in paths ==> p in tree && Clean(setup, p)
  }

  lemma TransferredAt(setup: Setup, w: World, tree: Tree, paths: seq<string>, failure: Failure, p: string)
    requires CleanPaths(setup, tree, paths) && Clean(setup, p)
    ensures var after := Transferred(setup, w, tree, paths, failure);
            && after.saved == (if Completes(paths, failure) then Some(Scan(setup, tree)) else w.saved)
            && (p !in Attempted(paths, failure) ==> SameAt(setup, w.remote, after.remote, p))
            && (p in paths && Completes(paths, failure) ==> Holds(setup, after.remote, p, tree[p]))
  {
    if failure.AtUpload? && failure.k < |paths| {
      StoppedAt(setup, w, tree, paths, failure, p);
    } else {
      WrittenAt(setup, w.remote, tree, paths, p);
      Apart(setup, tree, paths, p);
      RemotePathInjective(setup, p, p);
    }
  }

  lemma StoppedAt(setup: Setup, w: World, tree: Tree, paths: seq<string>, failure: Failure, p: string)
    requires CleanPaths(setup, tree, paths) && Clean(setup, p) && failure.AtUpload? && failure.k < |paths|
    ensures p !in Attempted(paths, failure) ==>
              SameAt(setup, w.remote, Transferred(setup, w, tree, paths, failure).remote, p)
  {
    var done, last := paths[..failure.k], paths[failure.k];
    assert Attempted(paths, failure) == done + [last] && last in paths;
    if p !in done + [last] {
      WrittenAt(setup, w.remote, tree, done, p);
      Apart(setup, tree, done, p);
      RemotePathInjective(setup, last, p);
    }
  }

  lemma Apart(setup: Setup, tree: Tree, paths: seq<string>, p: string)
    requires CleanPaths(setup, tree, paths) && Clean(setup, p)
    ensures p !in paths ==> forall q :: q in paths ==> RemotePath(setup, p) != RemotePath(setup, q)
  {
    forall q | q in paths && p !in paths ensures RemotePath(setup, p) != RemotePath(setup, q) {
      RemotePathInjective(setup, p, q);
    }
  }

  /** A completed push makes the remote equal to local at a scanned path exactly when the path was uploaded
      or was right before; and it saves the scan. */
  lemma CompletedPushAt(setup: Setup, w: World, tree: Tree, failure: Failure, p: string)
    requires CleanFiles(setup, Scan(setup, tree)) && p in Scan(setup, tree)
    requires Completes(Pending(Scan(setup, tree), w.saved), failure)
    ensures var after := AfterPush(setup, w, tree, failure);
            && after.saved == Some(Scan(setup, tree))
            && (Holds(setup, after.remote, p, tree[p]) <==>
                  DigestAt(Previous(w.saved), p) != Some(Sha256(tree[p])) || Holds(setup, w.remote, p, tree[p]))
  {
    TransferredAt(setup, w, tree, Pending(Scan(setup, tree), w.saved), failure, p);
  }

  /** A push from a mirror that completes leaves a mirror, equal to local on every scanned path. */
  lemma CompletedPushMirrors(setup: Setup, w: World, tree: Tree, failure: Failure)
    requires CleanFiles(setup, Scan(setup, tree)) && Mirror(setup, w)
    requires Completes(Pending(Scan(setup, tree), w.saved), failure)
    ensures var after := AfterPush(setup, w, tree, failure);
            Mirror(setup, after) && forall p :: p in Scan(setup, tree) ==> Holds(setup, after.remote, p, tree[p])
  {
    var after := AfterPush(setup, w, tree, failure);
    var scan := Scan(setup, tree);
    forall p | p in scan ensures Holds(setup, after.remote, p, tree[p]) {
      CompletedPushAt(setup, w, tree, failure, p);
      assert MirroredAt(setup, w, p);
    }
    assert after.saved == Some(scan);
  }

  /** A remote file that is not uploaded stays as it is, also where a delete was planned. */
  lemma DeletesAreNotExecuted(setup: Setup, w: World, tree: Tree, failure: Failure, p: string)
    requires CleanFiles(setup, Scan(setup, tree)) && Clean(setup, p) && p !in Scan(setup, tree)
    ensures SameAt(setup, w.remote, AfterPush(setup, w, tree, failure).remote, p)
  {
    TransferredAt(setup, w, tree, Pending(Scan(setup, tree), w.saved), failure, p);
  }

  datatype Op = PushOp(tree: Tree, failure: Failure) | PushFileOp(tree: Tree, path: string, failure: Failure)

  /** A world with the paths at which it may differ from the saved manifest. */
  datatype Tracked = Tracked(world: World, stale: set<string>)

  ghost function Uploads(setup: Setup, w: World, op: Op): seq<string> {
    match op
    case PushOp(tree, _) => Pending(Scan(setup, tree), w.saved)
    case PushFileOp(tree, path, _) =>
      if NormalizeSyncPath(path).Some? then PendingOnly(setup, w, tree, NormalizeSyncPath(path).value) else []
  }

  ghost function After(setup: Setup, w: World, op: Op): World {
    match op
    case PushOp(tree, failure) => AfterPush(setup, w, tree, failure)
    case PushFileOp(tree, path, failure) => AfterPushFile(setup, w, tree, path, failure)
  }

  /** `push_file` did not refuse. */
  predicate Accepted(setup: Setup, op: Op) {
    op.PushFileOp? ==> NormalizeSyncPath(op.path).Some? && NormalizeSyncPath(op.path).value in Scan(setup, op.tree)
  }

  /** An operation that fails makes the uploads it started stale; one that completes makes the uploads it
      saved without doing them stale, and clears the ones it did. */
  ghost function Next(setup: Setup, t: Tracked, op: Op): Tracked {
    var uploads := Uploads(setup, t.world, op);
    var pending := Pending(Scan(setup, op.tree), t.world.saved);
    var stale :=
      if !Accepted(setup, op) then t.stale
      else if Completes(uploads, op.failure) then
        set p | p in Scan(setup, op.tree) && p !in uploads && (p in t.stale || p in pending)
      else t.stale + (set p | p in Attempted(uploads, op.failure));
    Tracked(After(setup, t.world, op), stale)
  }

  ghost function Run(setup: Setup, t: Tracked, ops: seq<Op>): Tracked
    decreases |ops|
  {
    if ops == [] then t else Run(setup, Next(setup, t, ops[0]), ops[1..])
  }

  ghost predicate Sound(setup: Setup, t: Tracked) {
    MirrorOutside(setup, t.world, t.stale) && CleanFiles(setup, Previous(t.world.saved))
  }

  ghost predicate CleanOps(setup: Setup, ops: seq<Op>) {
    forall op :: op in ops ==> CleanFiles(setup, Scan(setup, op.tree))
  }

  lemma NextIsSound(setup: Setup, t: Tracked, op: Op)
    requires Sound(setup, t) && CleanFiles(setup, Scan(setup, op.tree))
    ensures Sound(setup, Next(setup, t, op))
  {
    var next := Next(setup, t, op);
    var uploads := Uploads(setup, t.world, op);
    var scan := Scan(setup, op.tree);
    if Accepted(setup, op) {
      assert next.world == Transferred(setup, t.world, op.tree, uploads, op.failure);
      forall p | p !in next.stale ensures MirroredAt(setup, next.world, p) {
        assert MirroredAt(setup, t.world, p) || p in t.stale;
        if p in scan || p in Previous(t.world.saved) {
          TransferredAt(setup, t.world, op.tree, uploads, op.failure, p);
        } else {
          NoPathSaved(setup, t.world, op.tree, uploads, op.failure);
        }
      }
      NoPathSaved(setup, t.world, op.tree, uploads, op.failure);
    }
  }

  lemma NoPathSaved(setup: Setup, w: World, tree: Tree, paths: seq<string>, failure: Failure)
    requires forall p :: p in paths ==> p in tree
    ensures Transferred(setup, w, tree, paths, failure).saved ==
              if Completes(paths, failure) then Some(Scan(setup, tree)) else w.saved
  {
  }

  /** Over every run of pushes and single-file pushes of changing trees, failing anywhere, the saved manifest
      describes the remote outside the stale paths. */
  lemma {:induction false} RunIsSound(setup: Setup, t: Tracked, ops: seq<Op>)
    requires Sound(setup, t) && CleanOps(setup, ops)
    ensures Sound(setup, Run(setup, t, ops))
    decreases |ops|
  {
    if ops != [] {
      NextIsSound(setup, t, ops[0]);
      RunIsSound(setup, Next(setup, t, ops[0]), ops[1..]);
    }
  }

  /** So after any run a completed push restores the mirror when no stale path has its saved content back. */
  lemma PushAfterAnyRun(setup: Setup, w: World, ops: seq<Op>, tree: Tree)
    requires Mirror(setup, w) && CleanFiles(setup, Previous(w.saved)) && CleanOps(setup, ops) &&
               CleanFiles(setup, Scan(setup, tree))
    requires var t := Run(setup, Tracked(w, {}), ops);
             forall p :: p in t.stale && p in Scan(setup, tree) ==>
                 DigestAt(Previous(t.world.saved), p) != DigestAt(Scan(setup, tree), p)
    ensures var t := Run(setup, Tracked(w, {}), ops);
            var after := AfterPush(setup, t.world, tree, Never);
            Mirror(setup, after) && forall p :: p in Scan(setup, tree) ==> Holds(setup, after.remote, p, tree[p])
  {
    RunIsSound(setup, Tracked(w, {}), ops);
    var t := Run(setup, Tracked(w, {}), ops);
    var after := AfterPush(setup, t.world, tree, Never);
    var scan := Scan(setup, tree);
    forall p | p in scan ensures Holds(setup, after.remote, p, tree[p]) {
      CompletedPushAt(setup, t.world, tree, Never, p);
      assert p !in t.stale ==> MirroredAt(setup, t.world, p);
    }
    assert after.saved == Some(scan);
  }

  function Retries(tree: Tree, failures: seq<Failure>): seq<Op> {
    seq(|failures|, i requires 0 <= i < |failures| => PushOp(tree, failures[i]))
  }

  ghost predicate StaleIsPending(setup: Setup, t: Tracked, tree: Tree) {
    forall p :: p in t.stale ==> p in Pending(Scan(setup, tree), t.world.saved)
  }

  lemma {:induction false} RetriesStayPending(setup: Setup, t: Tracked, tree: Tree, failures: seq<Failure>)
    requires StaleIsPending(setup, t, tree)
    ensures StaleIsPending(setup, Run(setup, t, Retries(tree, failures)), tree)
    decreases |failures|
  {
    var ops := Retries(tree, failures);
    if failures == [] {
      assert ops == [];
    } else {
      assert ops[0] == PushOp(tree, failures[0]) && ops[1..] == Retries(tree, failures[1..]);
      RetryStaysPending(setup, t, tree, failures[0]);
      RetriesStayPending(setup, Next(setup, t, ops[0]), tree, failures[1..]);
    }
  }

  lemma RetryStaysPending(setup: Setup, t: Tracked, tree: Tree, failure: Failure)
    requires StaleIsPending(setup, t, tree)
    ensures StaleIsPending(setup, Next(setup, t, PushOp(tree, failure)), tree)
  {
    var pending := Pending(Scan(setup, tree), t.world.saved);
    NoPathSaved(setup, t.world, tree, pending, failure);
    assert forall p :: p in Attempted(pending, failure) ==> p in pending;
  }

  /** A push that fails any number of times, anywhere, and then completes on the same local tree restores the
      mirror and makes the remote equal to local. */
  lemma RetriedPushRestoresMirror(setup: Setup, w: World, tree: Tree, failures: seq<Failure>)
    requires Mirror(setup, w) && CleanFiles(setup, Previous(w.saved)) && CleanFiles(setup, Scan(setup, tree))
    ensures var failed := Run(setup, Tracked(w, {}), Retries(tree, failures)).world;
            var after := AfterPush(setup, failed, tree, Never);
            Mirror(setup, after) && forall p :: p in Scan(setup, tree) ==> Holds(setup, after.remote, p, tree[p])
  {
    RetriesStayPending(setup, Tracked(w, {}), tree, failures);
    PushAfterAnyRun(setup, w, Retries(tree, failures), tree);
  }

  /** A push that failed after uploading `p`, then a push of a tree in which `p` has its saved content back:
      the second one does not upload `p`, so it ends right only if both versions read the same. */
  lemma RevertedAfterFailureIff(setup: Setup, w: World, tree: Tree, k: nat, reverted: Tree, p: string)
    requires Mirror(setup, w) && CleanFiles(setup, Scan(setup, tree)) && CleanFiles(setup, Scan(setup, reverted))
    requires k < |Pending(Scan(setup, tree), w.saved)| && p in Pending(Scan(setup, tree), w.saved)[..k]
    requires p in Scan(setup, reverted) && DigestAt(Previous(w.saved), p) == Some(Sha256(reverted[p]))
    ensures var failed := AfterPush(setup, w, tree, AtUpload(k, None));
            var after := AfterPush(setup, failed, reverted, Never);
            && after.saved == Some(Scan(setup, reverted))
            && (Holds(setup, after.remote, p, reverted[p]) <==> ReadText(tree[p]) == ReadText(reverted[p]))
  {
    var paths := Pending(Scan(setup, tree), w.saved);
    var failed := AfterPush(setup, w, tree, AtUpload(k, None));
    assert forall q :: q in paths[..k] ==> q in paths;
    WrittenAt(setup, w.remote, tree, paths[..k], p);
    CompletedPushAt(setup, failed, reverted, Never, p);
  }

  lemma RevertedAfterFailureBreaks(setup: Setup, w: World, tree: Tree, k: nat, reverted: Tree, p: string)
    requires Mirror(setup, w) && CleanFiles(setup, Scan(setup, tree)) && CleanFiles(setup, Scan(setup, reverted))
    requires k < |Pending(Scan(setup, tree), w.saved)| && p in Pending(Scan(setup, tree), w.saved)[..k]
    requires p in Scan(setup, reverted) && DigestAt(Previous(w.saved), p) == Some(Sha256(reverted[p]))
    requires ReadText(tree[p]) != ReadText(reverted[p])
    ensures !Mirror(setup, AfterPush(setup, AfterPush(setup, w, tree, AtUpload(k, None)), reverted, Never))
  {
    RevertedAfterFailureIff(setup, w, tree, k, reverted, p);
    var after := AfterPush(setup, AfterPush(setup, w, tree, AtUpload(k, None)), reverted, Never);
    assert !MirroredAt(setup, after, p);
  }

  /** The smallest such case: the remote keeps the text of the failed push under the saved hash of another. */
  lemma RevertedAfterFailureIsStale(setup: Setup, w: World, tree: Tree, reverted: Tree)
    requires setup.skips("a", "old") == setup.skips("a", "new") == setup.skips("b", "x") == None
    requires tree == map["a" := "new", "b" := "x"] && reverted == map["a" := "old"]
    requires CleanFiles(setup, Scan(setup, tree))
    requires w == World(map[RemotePath(setup, "a") := Text("old")], Some(map["a" := FileRecord(Sha256("old"), 3)]))
    ensures Mirror(setup, w)
    ensures !Mirror(setup, AfterPush(setup, AfterPush(setup, w, tree, AtUpload(1, None)), reverted, Never))
  {
    ReadTextIsIdentityIff("old");
    ReadTextIsIdentityIff("new");
    TwoPending(setup, tree, w.saved);
    assert "a" in Scan(setup, tree);
    RevertedAfterFailureBreaks(setup, w, tree, 1, reverted, "a");
  }

  lemma TwoPending(setup: Setup, tree: Tree, saved: Option<Files>)
    requires tree == map["a" := "new", "b" := "x"] && saved == Some(map["a" := FileRecord(Sha256("old"), 3)])
    requires setup.skips("a", "new") == setup.skips("b", "x") == None
    ensures Pending(Scan(setup, tree), saved) == ["a", "b"]
    ensures ["a", "b"][..1] == ["a"]
  {
    assert Less("a", "b");
    SortedIsUnique(Pending(Scan(setup, tree), saved), ["a", "b"]);
  }

  /** `push_file` keeps the mirror exactly when every other pending upload is already on the remote. */
  lemma PushFileMirrorsIff(setup: Setup, w: World, tree: Tree, path: string)
    requires Mirror(setup, w) && CleanFiles(setup, Scan(setup, tree))
    requires Accepted(setup, PushFileOp(tree, path, Never))
    ensures var p := NormalizeSyncPath(path).value;
            Mirror(setup, AfterPushFile(setup, w, tree, path, Never)) <==>
            forall q :: q in Pending(Scan(setup, tree), w.saved) && q != p ==> Holds(setup, w.remote, q, tree[q])
  {
    var p := NormalizeSyncPath(path).value;
    var scan := Scan(setup, tree);
    var after := AfterPushFile(setup, w, tree, path, Never);
    NoPathSaved(setup, w, tree, PendingOnly(setup, w, tree, p), Never);
    forall q | q in scan
      ensures MirroredAt(setup, after, q) <==>
                q !in Pending(scan, w.saved) || q == p || Holds(setup, w.remote, q, tree[q]) {
      TransferredAt(setup, w, tree, PendingOnly(setup, w, tree, p), Never, q);
      assert MirroredAt(setup, w, q);
    }
  }

  /** And what it saved without uploading, no later push of the same tree uploads. */
  lemma PushFileHidesPending(setup: Setup, w: World, tree: Tree, path: string, failures: seq<Failure>, q: string)
    requires CleanFiles(setup, Scan(setup, tree)) && Accepted(setup, PushFileOp(tree, path, Never))
    requires q in Pending(Scan(setup, tree), w.saved) && q != NormalizeSyncPath(path).value
    ensures var after := AfterPushFile(setup, w, tree, path, Never);
            SameAt(setup, w.remote, Run(setup, Tracked(after, {}), Retries(tree, failures)).world.remote, q)
  {
    var p := NormalizeSyncPath(path).value;
    var after := AfterPushFile(setup, w, tree, path, Never);
    TransferredAt(setup, w, tree, PendingOnly(setup, w, tree, p), Never, q);
    NothingPending(setup, Tracked(after, {}), tree, failures, q);
  }

  lemma {:induction false} NothingPending(setup: Setup, t: Tracked, tree: Tree, failures: seq<Failure>, q: string)
    requires CleanFiles(setup, Scan(setup, tree)) && Clean(setup, q) && t.world.saved == Some(Scan(setup, tree))
    ensures var end := Run(setup, t, Retries(tree, failures)).world;
            SameAt(setup, t.world.remote, end.remote, q)
    decreases |failures|
  {
    if failures != [] {
      var ops := Retries(tree, failures);
      assert ops[0] == PushOp(tree, failures[0]) && ops[1..] == Retries(tree, failures[1..]);
      var pending := Pending(Scan(setup, tree), t.world.saved);
      TransferredAt(setup, t.world, tree, pending, failures[0], q);
      NothingPending(setup, Next(setup, t, ops[0]), tree, failures[1..], q);
    }
  }

  // ---- The remote manifest

  /** The remote manifest is the saved one. */
  ghost predicate ManifestIsSaved(setup: Setup, w: World) {
    var at := RemotePath(setup, setup.manifestPath);
    w.saved.Some? && at in w.remote && w.remote[at] == Json(w.saved.value)
  }

  /** A push, or a single-file push that is not refused, leaves the remote manifest equal to the saved one if it
      completes; stopped while uploading it leaves both alone; and if only saving fails, the remote manifest is
      ahead: it lists what is on the remote now. */
  lemma ManifestAfter(setup: Setup, w: World, tree: Tree, paths: seq<string>, failure: Failure)
    requires CleanPaths(setup, tree, paths)
    ensures var at, after := RemotePath(setup, setup.manifestPath), Transferred(setup, w, tree, paths, failure);
            && (Completes(paths, failure) ==> ManifestIsSaved(setup, after) && after.saved == Some(Scan(setup, tree)))
            && (failure.AtUpload? && failure.k < |paths| ==>
                  (ManifestIsSaved(setup, after) <==> ManifestIsSaved(setup, w)))
            && (failure == AtSave ==>
                  after.saved == w.saved && at in after.remote && after.remote[at] == Json(Scan(setup, tree)))
  {
    if failure.AtUpload? && failure.k < |paths| {
      var done, last := paths[..failure.k], paths[failure.k];
      assert last in paths;
      RemotePathInjective(setup, last, last);
      forall q | q in done ensures RemotePath(setup, setup.manifestPath) != RemotePath(setup, q) {
        assert q in paths;
        RemotePathInjective(setup, q, q);
      }
      WrittenAt(setup, w.remote, tree, done, last);
    }
  }

  /** A mirrored file has the saved hash exactly when its text has no carriage return. */
  lemma RemoteHashIsSavedHashIff(setup: Setup, w: World, p: string)
    requires p in Previous(w.saved) && MirroredAt(setup, w, p)
    ensures Sha256(w.remote[RemotePath(setup, p)].text) == Previous(w.saved)[p].sha256
            <==> '\r' !in Previous(w.saved)[p].sha256.text
  {
    ReadTextIsIdentityIff(Previous(w.saved)[p].sha256.text);
  }
}
