/** Mapping of user paths into a target's workspace (`WorkspacePolicy` and its helpers). */
module WorkspacePaths {
  import opened Model
  import opened Paths
  import opened PathNames

  datatype PathError = Absolute | OutsideRoot | Denied

  datatype Result<+T> = Ok(value: T) | Err(error: PathError)

  predicate LooksAbsolute(slashed: string) {
    (slashed != "" && slashed[0] == '/') || (|slashed| > 1 && slashed[1] == ':')
  }

  predicate Dropped(part: string) {
    part == "" || part == "."
  }

  /** The components that name something. */
  function Kept(parts: seq<string>): seq<string> {
    if parts == [] then []
    else Kept(parts[..|parts| - 1]) + (if Dropped(parts[|parts| - 1]) then [] else [parts[|parts| - 1]])
  }

  function Rejoined(parts: seq<string>): string {
    if Join(parts) == "" then "." else Join(parts)
  }

  /** What `_normalize_relative_shape` computes. */
  function Normalized(path: string): Result<string> {
    var slashed := Slashed(path);
    if LooksAbsolute(slashed) then Err(Absolute)
    else if ".." in Split(slashed) then Err(OutsideRoot)
    else Ok(Rejoined(Kept(Split(slashed))))
  }

  method NormalizeRelativeShape(path: string) returns (r: Result<string>)
    ensures r == Normalized(path)
  {
    var given := if path == "" then "." else path;
    var normalized := Slashed(given);
    EmptyIsDot(path);
    if LooksAbsolute(normalized) {
      return Err(Absolute);
    }
    var all := Split(normalized);
    var parts := [];
    for k := 0 to |all|
      invariant ".." !in all[..k]
      invariant parts == Kept(all[..k])
    {
      assert all[..k + 1][..k] == all[..k];
      var part := all[k];
      if part == "" || part == "." { continue; }
      if part == ".." {
        return Err(OutsideRoot);
      }
      parts := parts + [part];
    }
    assert all[..|all|] == all;
    r := Ok(Rejoined(parts));
  }

  lemma EmptyIsDot(path: string)
    ensures Normalized(if path == "" then "." else path) == Normalized(path)
  {
    assert Slashed("") == "" && Slashed(".") == ".";
    assert Split("") == [""] && Split(".") == ["."];
    assert Kept([""]) == [] && Kept(["."]) == [];
  }

  /** A path in normal form: `.`, or components separated by single slashes, none of which is special. */
  ghost predicate NormalForm(p: string) {
    p == "." || ('\\' !in p && forall part :: part in Split(p) ==> !Dropped(part) && part != "..")
  }

  lemma {:induction false} KeptMembers(parts: seq<string>, part: string)
    ensures part in Kept(parts) <==> part in parts && !Dropped(part)
  {
    if parts != [] {
      KeptMembers(parts[..|parts| - 1], part);
      assert parts == parts[..|parts| - 1] + [parts[|parts| - 1]];
    }
  }

  lemma {:induction false} KeepsAll(parts: seq<string>)
    requires forall part :: part in parts ==> !Dropped(part)
    ensures Kept(parts) == parts
  {
    if parts != [] {
      KeepsAll(parts[..|parts| - 1]);
      assert parts == parts[..|parts| - 1] + [parts[|parts| - 1]];
    }
  }

  /** The components of a normalised path are those of the input that name something. */
  lemma ComponentsAreKept(path: string)
    requires Normalized(path).Ok?
    ensures var kept := Kept(Split(Slashed(path)));
            if kept == [] then Normalized(path) == Ok(".")
            else Normalized(path).value != "" && Split(Normalized(path).value) == kept
  {
    var parts := Split(Slashed(path));
    var kept := Kept(parts);
    if kept != [] {
      forall part | part in kept ensures part in parts && !Dropped(part) { KeptMembers(parts, part); }
      SplitOfJoin(kept);
      SplitStart(Join(kept));
    }
  }

  /** Which paths are refused and how: those that begin with a separator or have a colon in second position,
      and those with a component that leads upwards.  Any other comes out as its components that name
      something, joined by slashes, or as a dot if there are none. */
  lemma NormalizedOfSpelled(path: string, lead: string, parts: seq<string>, separators: string, trail: string)
    requires Spells(path, lead, parts, separators, trail)
    ensures Normalized(path) ==
              if lead != "" || (|path| > 1 && path[1] == ':') then Err(Absolute)
              else if ".." in parts then Err(OutsideRoot)
              else if forall part :: part in parts ==> part == "" || part == "." then Ok(".")
              else Ok(Join(Kept(parts)))
    ensures forall part :: part in Kept(parts) <==> part in parts && part != "" && part != "."
  {
    var slashed := Slashed(path);
    SlashedEnds(path, lead, parts, separators, trail);
    forall part ensures part in Kept(parts) <==> part in parts && !Dropped(part) { KeptMembers(parts, part); }
    if lead == "" {
      assert slashed == Join(parts) + seq(|trail|, _ => '/');
      TrailDropped(parts, |trail|);
    }
  }

  lemma TrailDropped(parts: seq<string>, n: nat)
    requires parts != [] && forall part :: part in parts ==> Plain(part)
    ensures var split := Split(Join(parts) + seq(n, _ => '/'));
            && (".." in split <==> ".." in parts) && Kept(split) == Kept(parts)
            && (Join(Kept(parts)) == "" <==> forall part :: part in parts ==> Dropped(part))
  {
    SplitOfTrailed(parts, n);
    KeptOfTrailed(parts, n);
    forall part ensures part in Kept(parts) <==> part in parts && !Dropped(part) { KeptMembers(parts, part); }
    if Kept(parts) != [] {
      assert Kept(parts)[0] in Kept(parts);
      JoinIsNamed(Kept(parts));
    }
  }

  lemma NormalizedOfSeparators(path: string)
    requires AllSeparators(path)
    ensures Normalized(path) == if path == "" then Ok(".") else Err(Absolute)
  {
    SlashedSeparators(path);
    EmptyIsDot(path);
    if path == "" { assert Split("") == [""] && Kept([""]) == []; }
  }

  /** The slashed form of a path, and where its special places are. */
  lemma SlashedEnds(path: string, lead: string, parts: seq<string>, separators: string, trail: string)
    requires Spells(path, lead, parts, separators, trail)
    ensures var slashed := Slashed(path);
            && slashed == seq(|lead|, _ => '/') + Join(parts) + seq(|trail|, _ => '/')
            && (LooksAbsolute(slashed) <==> lead != "" || (|path| > 1 && path[1] == ':'))
  {
    var glued := Glue(parts, separators);
    SlashedConcat(lead, glued);
    SlashedConcat(lead + glued, trail);
    SlashedSeparators(lead);
    SlashedSeparators(trail);
    SlashedGlue(parts, separators);
    EndsOfJoin(parts);
  }

  lemma {:induction false} SplitOfTrailed(parts: seq<string>, n: nat)
    requires parts != [] && forall part :: part in parts ==> Plain(part)
    ensures Split(Join(parts) + seq(n, _ => '/')) == parts + seq(n, _ => "")
    decreases n
  {
    if n == 0 {
      SplitOfJoin(parts);
      assert Join(parts) + seq(n, _ => '/') == Join(parts) && parts + seq(n, _ => "") == parts;
    } else {
      SplitOfTrailed(parts, n - 1);
      var before := Join(parts) + seq(n - 1, _ => '/');
      SplitOfNested(before, "");
      assert Split("") == [""];
      assert Join(parts) + seq(n, _ => '/') == before + "/" + "";
      assert parts + seq(n, _ => "") == parts + seq(n - 1, _ => "") + [""];
    }
  }

  lemma {:induction false} KeptOfTrailed(parts: seq<string>, n: nat)
    ensures Kept(parts + seq(n, _ => "")) == Kept(parts)
    decreases n
  {
    var all := parts + seq(n, _ => "");
    if n == 0 {
      assert all == parts;
    } else {
      KeptOfTrailed(parts, n - 1);
      assert all[..|all| - 1] == parts + seq(n - 1, _ => "");
    }
  }

  lemma JoinIsNamed(parts: seq<string>)
    requires parts != [] && parts[0] != ""
    ensures Join(parts) != ""
  {
  }

  /** Every accepted path comes out in normal form. */
  lemma NormalizedIsNormal(path: string)
    requires Normalized(path).Ok?
    ensures NormalForm(Normalized(path).value)
  {
    ComponentsAreKept(path);
    var parts := Split(Slashed(path));
    var kept := Kept(parts);
    forall part | part in kept ensures part in parts && !Dropped(part) { KeptMembers(parts, part); }
    if kept != [] {
      JoinOfSplit(Slashed(path));
      CharsOfJoin(parts, '\\');
      CharsOfJoin(kept, '\\');
    }
  }

  /** Normalising again changes nothing, unless the second character is a colon: then it is refused. */
  lemma NormalizingAgain(p: string)
    requires NormalForm(p)
    ensures Normalized(p) == if |p| > 1 && p[1] == ':' then Err(Absolute) else Ok(p)
  {
    if p == "." {
      EmptyIsDot("");
    } else {
      JoinOfSplit(p);
      KeepsAll(Split(p));
      SplitStart(p);
    }
  }

  lemma IdempotentIff(path: string)
    requires Normalized(path).Ok?
    ensures var r := Normalized(path).value;
            Normalized(r) == Ok(r) <==> !(|r| > 1 && r[1] == ':')
  {
    NormalizedIsNormal(path);
    NormalizingAgain(Normalized(path).value);
  }

  /** The accepted results are exactly the normal forms: `./p` normalises to `p`. */
  lemma EveryNormalFormIsReached(p: string)
    requires NormalForm(p)
    ensures Normalized("./" + p) == Ok(p)
  {
    var path := "./" + p;
    assert '\\' !in path && path == "." + "/" + p;
    FirstSlashIs(".", p);
    DropFirst(Split(p));
    assert !LooksAbsolute(path);
    if p == "." {
      assert Split(p) == ["."] && Kept(Split(p)) == [];
    } else {
      KeepsAll(Split(p));
      JoinOfSplit(p);
      SplitStart(p);
    }
  }

  lemma {:induction false} DropFirst(parts: seq<string>)
    ensures Kept(["."] + parts) == Kept(parts)
  {
    var all := ["."] + parts;
    if parts == [] {
      assert all == ["."] && Kept(["."]) == [];
    } else {
      DropFirst(parts[..|parts| - 1]);
      assert all[..|all| - 1] == ["."] + parts[..|parts| - 1];
    }
  }

  /** A path accepted once can be refused in its normalised form. */
  lemma NormalisedButRefused()
    ensures Normalized("./a:") == Ok("a:") && Normalized("a:") == Err(Absolute)
  {
    FirstSlashIs("a:", "");
    assert NormalForm("a:");
    EveryNormalFormIsReached("a:");
    NormalizingAgain("a:");
    assert "./" + "a:" == "./a:";
  }

  /** The remote side of a policy: `authorized` stands for the allow and deny patterns. */
  datatype Policy = Policy(configuredRoot: string, fallbackRoot: string, off: bool, authorized: string -> bool) {
    function RemoteRoot(): string {
      Root(if configuredRoot != "" then configuredRoot else fallbackRoot)
    }

    function NormalizeRelativePath(path: string): Result<string> {
      var relative := Normalized(path);
      if relative.Ok? && !off && !authorized(relative.value) then Err(Denied) else relative
    }

    /** `runtime_path(path, target="remote").path` */
    function RuntimePath(path: string): Result<string> {
      match NormalizeRelativePath(path)
      case Err(e) => Err(e)
      case Ok(relative) => Ok(if relative == "." then RemoteRoot() else RStripped(RemoteRoot()) + "/" + relative)
    }

    /** `display_path(runtime_path, target="remote")` */
    function DisplayPath(runtimePath: string): string {
      var root := RStripped(RemoteRoot());
      var value := Slashed(runtimePath);
      if value == root then "."
      else if root + "/" <= value then value[|root| + 1..]
      else value
    }
  }

  /** The remote root is the configured one, and the fallback only where none is configured; and the components
      of either are kept. */
  lemma RemoteRootComponents(policy: Policy, front: seq<string>, separators: string, trail: string)
    requires AllSeparators(separators) && AllSeparators(trail) && front != [] && |separators| == |front| - 1
    requires (forall part :: part in front ==> Plain(part)) && front[|front| - 1] != ""
    requires policy.configuredRoot == Glue(front, separators) + trail ||
               (policy.configuredRoot == "" && policy.fallbackRoot == Glue(front, separators) + trail)
    ensures Split(policy.RemoteRoot()) == front
  {
    RootOfSpelled(Glue(front, separators) + trail, front, separators, trail);
    if policy.configuredRoot == "" && Glue(front, separators) + trail == "" { GlueIsNamed(front, separators); }
  }

  lemma {:induction false} GlueIsNamed(parts: seq<string>, separators: string)
    requires parts != [] && |separators| == |parts| - 1 && parts[|parts| - 1] != ""
    ensures Glue(parts, separators) != ""
  {
    if |parts| > 1 { GlueIsNamed(parts[1..], separators[1..]); }
  }

  /** A path is mapped exactly if it normalises, and the patterns authorise its normal form or are switched
      off; otherwise the error tells which. */
  lemma MappedIff(policy: Policy, path: string)
    ensures policy.RuntimePath(path).Ok? <==>
              Normalized(path).Ok? && (policy.off || policy.authorized(Normalized(path).value))
    ensures policy.RuntimePath(path) == Err(Denied) <==>
              Normalized(path).Ok? && !policy.off && !policy.authorized(Normalized(path).value)
    ensures policy.RuntimePath(path).Ok? && !policy.off ==>
              policy.authorized(policy.DisplayPath(policy.RuntimePath(path).value))
  {
    if policy.RuntimePath(path).Ok? { DisplayInvertsRuntime(policy, path); }
  }

  /** Displaying the runtime path of an accepted path gives the normalised path back. */
  lemma DisplayInvertsRuntime(policy: Policy, path: string)
    requires policy.RuntimePath(path).Ok?
    ensures Ok(policy.DisplayPath(policy.RuntimePath(path).value)) == Normalized(path)
  {
    var relative := Normalized(path).value;
    var root := policy.RemoteRoot();
    NormalizedIsNormal(path);
    if relative != "." {
      var value := root + "/" + relative;
      assert '\\' !in value;
      assert value[|root| + 1..] == relative;
    }
  }

  /** So two accepted paths are mapped to one remote path exactly when they normalise alike. */
  lemma SameRuntimePathIff(policy: Policy, a: string, b: string)
    requires policy.RuntimePath(a).Ok? && policy.RuntimePath(b).Ok?
    ensures policy.RuntimePath(a) == policy.RuntimePath(b) <==> Normalized(a) == Normalized(b)
  {
    DisplayInvertsRuntime(policy, a);
    DisplayInvertsRuntime(policy, b);
  }

  /** What follows the root in a runtime path never leads back above it. */
  lemma RuntimePathStaysInside(policy: Policy, path: string)
    requires policy.RuntimePath(path).Ok?
    ensures var value := policy.RuntimePath(path).value;
            value == policy.RemoteRoot() ||
            (exists relative :: value == policy.RemoteRoot() + "/" + relative && relative != "." &&
                NormalForm(relative))
  {
    NormalizedIsNormal(path);
    var relative := Normalized(path).value;
    if relative != "." {
      assert policy.RuntimePath(path).value == policy.RemoteRoot() + "/" + relative;
    }
  }
}
