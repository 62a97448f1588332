/** Where the files of a push are: remote paths in terms of the components of root and name. */
module SyncPaths {
  import opened Model
  import opened Paths
  import opened PathNames
  import opened SyncEngine

  /** A path is kept in the file whose components are those of the root followed by its own; under the root `.`
      in the file of its own components; and one without components in the root itself. */
  lemma RemotePathComponents(setup: Setup, path: string, lead: string, parts: seq<string>, separators: string,
                             trail: string)
    requires Spells(path, lead, parts, separators, trail)
    ensures var root := Root(setup.remoteRoot);
            Split(RemotePath(setup, path)) == if root == "." then parts else Split(root) + parts
  {
    NameOfSpelled(path, lead, parts, separators, trail);
    SplitOfNested(Root(setup.remoteRoot), Join(parts));
  }

  lemma RemotePathOfSeparators(setup: Setup, path: string)
    requires AllSeparators(path)
    ensures RemotePath(setup, path) == Root(setup.remoteRoot)
  {
    NameOfSeparators(path);
  }

  /** `push_file` refuses exactly the paths without components and those that lead upwards, and looks for the
      others by their components. */
  lemma SyncPathIff(path: string, lead: string, parts: seq<string>, separators: string, trail: string)
    requires Spells(path, lead, parts, separators, trail)
    ensures NormalizeSyncPath(path) == if ".." in parts then None else Some(Join(parts))
  {
    NameOfSpelled(path, lead, parts, separators, trail);
  }

  lemma SeparatorsAreRefused(path: string)
    requires AllSeparators(path)
    ensures NormalizeSyncPath(path) == None
  {
    NameOfSeparators(path);
  }

  // ---- What a push touches

  /** The file of a path lies inside the root. */
  ghost predicate Inside(setup: Setup, file: string) {
    Root(setup.remoteRoot) == "." || Root(setup.remoteRoot) + "/" < file
  }

  lemma NamedIsInside(setup: Setup, path: string)
    requires !AllSeparators(path)
    ensures Inside(setup, RemotePath(setup, path))
  {
    var lead, parts, separators, trail := EveryPathIsSpelled(path);
    NameOfSpelled(path, lead, parts, separators, trail);
  }

  /** The file was made or changed. */
  ghost predicate Touched(before: map<string, Content>, after: map<string, Content>, file: string) {
    file in after && (file !in before || before[file] != after[file])
  }

  ghost predicate FileOfOne(setup: Setup, paths: seq<string>, file: string) {
    exists p :: p in paths && file == RemotePath(setup, p)
  }

  lemma {:induction false} WrittenTouches(setup: Setup, remote: map<string, Content>, tree: Tree, paths: seq<string>,
                                          file: string)
    requires forall p :: p in paths ==> p in tree
    ensures file in remote ==> file in Written(setup, remote, tree, paths)
    ensures Touched(remote, Written(setup, remote, tree, paths), file) ==> FileOfOne(setup, paths, file)
  {
    if paths != [] {
      var front, last := paths[..|paths| - 1], paths[|paths| - 1];
      assert paths == front + [last];
      WrittenTouches(setup, remote, tree, front, file);
      assert last in paths;
      if FileOfOne(setup, front, file) {
        var p :| p in front && file == RemotePath(setup, p);
        assert p in paths;
      }
    }
  }

  /** A push or single-file push, wherever it fails, removes no remote file, and touches only files of the paths it
      uploads and of the manifest. */
  lemma TransferTouches(setup: Setup, w: World, tree: Tree, paths: seq<string>, failure: Failure, file: string)
    requires forall p :: p in paths ==> p in tree
    ensures var after := Transferred(setup, w, tree, paths, failure).remote;
            && (file in w.remote ==> file in after)
            && (Touched(w.remote, after, file) ==>
                  file == RemotePath(setup, setup.manifestPath) || FileOfOne(setup, paths, file))
  {
    if failure.AtUpload? && failure.k < |paths| {
      var done, last := paths[..failure.k], paths[failure.k];
      WrittenTouches(setup, w.remote, tree, done, file);
      assert last in paths;
      if FileOfOne(setup, done, file) {
        var p :| p in done && file == RemotePath(setup, p);
        assert p in paths;
      }
    } else {
      WrittenTouches(setup, w.remote, tree, paths, file);
    }
  }

  /** So, these having names, it touches nothing outside the root. */
  lemma PushStaysInside(setup: Setup, w: World, tree: Tree, failure: Failure, file: string)
    requires (forall p :: p in tree ==> !AllSeparators(p)) && !AllSeparators(setup.manifestPath)
    requires Touched(w.remote, AfterPush(setup, w, tree, failure).remote, file)
    ensures Inside(setup, file)
  {
    UploadsStayInside(setup, w, tree, Pending(Scan(setup, tree), w.saved), failure, file);
  }

  lemma PushFileStaysInside(setup: Setup, w: World, tree: Tree, path: string, failure: Failure, file: string)
    requires !AllSeparators(setup.manifestPath)
    requires Touched(w.remote, AfterPushFile(setup, w, tree, path, failure).remote, file)
    ensures Inside(setup, file)
  {
    var p := NormalizeSyncPath(path);
    if p.Some? && p.value in Scan(setup, tree) {
      assert p.value[0] in p.value && !Separator(p.value[0]);
      UploadsStayInside(setup, w, tree, PendingOnly(setup, w, tree, p.value), failure, file);
    }
  }

  lemma UploadsStayInside(setup: Setup, w: World, tree: Tree, paths: seq<string>, failure: Failure, file: string)
    requires (forall p :: p in paths ==> p in tree && !AllSeparators(p)) && !AllSeparators(setup.manifestPath)
    requires Touched(w.remote, Transferred(setup, w, tree, paths, failure).remote, file)
    ensures Inside(setup, file)
  {
    TransferTouches(setup, w, tree, paths, failure, file);
    if file == RemotePath(setup, setup.manifestPath) {
      NamedIsInside(setup, setup.manifestPath);
    } else {
      var p :| p in paths && file == RemotePath(setup, p);
      NamedIsInside(setup, p);
    }
  }

  /** And the components after those of the root give a scanned path back. */
  lemma FileReadsBack(setup: Setup, path: string)
    requires path != "" && '\\' !in path && path[0] != '/' && path[|path| - 1] != '/'
    requires Root(setup.remoteRoot) != "."
    ensures var root := Split(Root(setup.remoteRoot));
            var file := Split(RemotePath(setup, path));
            root <= file && Join(file[|root|..]) == path
  {
    SplitOfNested(Root(setup.remoteRoot), path);
    JoinOfSplit(path);
  }
}
