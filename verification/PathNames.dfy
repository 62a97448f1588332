/** Paths as they are written: components with separators between and around them, and what replacing
    backslashes, stripping, splitting and joining make of them. */
module PathNames {
  import opened Paths

  predicate Separator(c: char) {
    c == '/' || c == '\\'
  }

  predicate AllSeparators(p: string) {
    forall c :: c in p ==> Separator(c)
  }

  /** A component: no separator in it. */
  predicate Plain(part: string) {
    '/' !in part && '\\' !in part
  }

  /** Components written one after another with the given separators between them. */
  ghost function Glue(parts: seq<string>, separators: string): string
    requires parts != [] && |separators| == |parts| - 1
  {
    if |parts| == 1 then parts[0] else parts[0] + [separators[0]] + Glue(parts[1..], separators[1..])
  }

  /** A path with its separators: some in front, components with one between each two, some behind.  The
      first and the last component name something. */
  ghost predicate Spells(path: string, lead: string, parts: seq<string>, separators: string, trail: string) {
    && AllSeparators(lead) && AllSeparators(separators) && AllSeparators(trail)
    && parts != [] && |separators| == |parts| - 1 && (forall part :: part in parts ==> Plain(part))
    && parts[0] != "" && parts[|parts| - 1] != ""
    && path == lead + Glue(parts, separators) + trail
  }

  // ---- Slashed, stripped

  lemma SlashedConcat(a: string, b: string)
    ensures Slashed(a + b) == Slashed(a) + Slashed(b)
  {
  }

  lemma SlashedSeparators(p: string)
    requires AllSeparators(p)
    ensures Slashed(p) == seq(|p|, _ => '/')
  {
    forall i | 0 <= i < |p| ensures Slashed(p)[i] == '/' { assert p[i] in p; }
  }

  lemma {:induction false} SlashedGlue(parts: seq<string>, separators: string)
    requires parts != [] && |separators| == |parts| - 1 && AllSeparators(separators)
    requires forall part :: part in parts ==> Plain(part)
    ensures Slashed(Glue(parts, separators)) == Join(parts)
  {
    assert Plain(parts[0]);
    if |parts| == 1 {
      assert Slashed(parts[0]) == parts[0];
    } else {
      var rest := Glue(parts[1..], separators[1..]);
      SlashedGlue(parts[1..], separators[1..]);
      SlashedConcat(parts[0], [separators[0]]);
      SlashedConcat(parts[0] + [separators[0]], rest);
      assert separators[0] in separators;
      assert Slashed([separators[0]]) == "/" && Slashed(parts[0]) == parts[0];
    }
  }

  lemma {:induction false} StrippedOfPadded(before: nat, p: string, after: nat)
    requires p != "" && p[0] != '/' && p[|p| - 1] != '/'
    ensures Stripped(seq(before, _ => '/') + p + seq(after, _ => '/')) == p
    decreases before
  {
    var padded := seq(before, _ => '/') + p + seq(after, _ => '/');
    if before == 0 {
      assert padded == p + seq(after, _ => '/');
      RStrippedOfPadded(p, after);
    } else {
      assert padded[1..] == seq(before - 1, _ => '/') + p + seq(after, _ => '/');
      StrippedOfPadded(before - 1, p, after);
    }
  }

  lemma {:induction false} RStrippedOfPadded(p: string, after: nat)
    requires p == "" || p[|p| - 1] != '/'
    ensures RStripped(p + seq(after, _ => '/')) == p
    decreases after
  {
    var padded := p + seq(after, _ => '/');
    if after == 0 {
      assert padded == p;
    } else {
      assert padded[..|padded| - 1] == p + seq(after - 1, _ => '/');
      RStrippedOfPadded(p, after - 1);
    }
  }

  lemma {:induction false} EndsOfJoin(parts: seq<string>)
    requires parts != [] && forall part :: part in parts ==> Plain(part)
    requires parts[0] != "" && parts[|parts| - 1] != ""
    ensures Join(parts) != "" && Join(parts)[0] != '/' && Join(parts)[|Join(parts)| - 1] != '/'
  {
    assert parts[0] in parts && parts[|parts| - 1] in parts;
    LastOfJoin(parts);
    assert Join(parts)[0] == parts[0][0];
  }

  lemma {:induction false} LastOfJoin(parts: seq<string>)
    requires parts != [] && parts[|parts| - 1] != "" && '/' !in parts[|parts| - 1]
    ensures Join(parts) != "" && Join(parts)[|Join(parts)| - 1] != '/'
  {
    if |parts| > 1 { LastOfJoin(parts[1..]); }
  }

  /** What the name of a path is: its components with slashes. */
  lemma NameOfSpelled(path: string, lead: string, parts: seq<string>, separators: string, trail: string)
    requires Spells(path, lead, parts, separators, trail)
    ensures Stripped(Slashed(path)) == Join(parts) && Join(parts) != "" && Split(Join(parts)) == parts
  {
    var glued := Glue(parts, separators);
    SlashedConcat(lead, glued);
    SlashedConcat(lead + glued, trail);
    SlashedSeparators(lead);
    SlashedSeparators(trail);
    SlashedGlue(parts, separators);
    EndsOfJoin(parts);
    StrippedOfPadded(|lead|, Join(parts), |trail|);
    SplitOfJoin(parts);
  }

  lemma {:induction false} NameOfSeparators(path: string)
    requires AllSeparators(path)
    ensures Stripped(Slashed(path)) == ""
  {
    SlashedSeparators(path);
    SlashesStripped(|path|);
  }

  lemma {:induction false} SlashesStripped(n: nat)
    ensures Stripped(seq(n, _ => '/')) == ""
  {
    if n > 0 {
      assert seq(n, _ => '/')[1..] == seq(n - 1, _ => '/');
      SlashesStripped(n - 1);
    }
  }

  // ---- Every path is spelled

  lemma {:induction false} EveryPathIsSpelled(path: string)
    returns (lead: string, parts: seq<string>, separators: string, trail: string)
    requires !AllSeparators(path)
    ensures Spells(path, lead, parts, separators, trail)
    decreases |path|
  {
    if Separator(path[0]) {
      var rest;
      assert path == [path[0]] + path[1..];
      rest, parts, separators, trail := EveryPathIsSpelled(path[1..]);
      lead := [path[0]] + rest;
      assert lead + Glue(parts, separators) + trail == [path[0]] + (rest + Glue(parts, separators) + trail);
    } else {
      parts, separators, trail := StartingWithName(path);
      lead := "";
    }
  }

  lemma {:induction false} StartingWithName(path: string)
    returns (parts: seq<string>, separators: string, trail: string)
    requires path != "" && !Separator(path[0])
    ensures Spells(path, "", parts, separators, trail)
    decreases |path|
  {
    var last := path[|path| - 1];
    var front := path[..|path| - 1];
    assert path == front + [last];
    if |path| == 1 {
      parts, separators, trail := [path], "", "";
    } else {
      var fronts, between, behind := StartingWithName(front);
      assert front == Glue(fronts, between) + behind;
      if Separator(last) {
        parts, separators, trail := fronts, between, behind + [last];
        assert path == Glue(parts, separators) + trail;
      } else {
        parts, separators := Extended(fronts, between, behind, last);
        trail := "";
      }
    }
  }

  /** One more character of a name after `behind`: it continues the last component or begins a new one. */
  lemma Extended(fronts: seq<string>, between: string, behind: string, last: char)
    returns (parts: seq<string>, separators: string)
    requires fronts != [] && |between| == |fronts| - 1
    requires Spells(Glue(fronts, between) + behind, "", fronts, between, behind) && !Separator(last)
    ensures Spells(Glue(fronts, between) + behind + [last], "", parts, separators, "")
  {
    if behind == "" {
      var n := |fronts| - 1;
      parts, separators := fronts[..n] + [fronts[n] + [last]], between;
      GlueLast(fronts, between, [last]);
      assert fronts[n] in fronts;
      assert parts[n] == fronts[n] + [last];
      if n == 0 { assert parts[0] == fronts[0] + [last]; } else { assert parts[0] == fronts[0]; }
    } else {
      var blanks: seq<string> := seq(|behind| - 1, _ => "");
      parts, separators := fronts + blanks + [[last]], between + behind;
      GlueMore(fronts, between, blanks + [[last]], behind);
      GlueBlanks(behind, last);
      var glued := Glue(blanks + [[last]], behind[1..]);
      assert Glue(fronts, between) + [behind[0]] + glued == Glue(fronts, between) + ([behind[0]] + glued);
      assert parts == fronts + (blanks + [[last]]);
    }
  }

  lemma {:induction false} GlueLast(parts: seq<string>, separators: string, more: string)
    requires parts != [] && |separators| == |parts| - 1
    ensures var n := |parts| - 1;
            Glue(parts[..n] + [parts[n] + more], separators) == Glue(parts, separators) + more
  {
    var n := |parts| - 1;
    var longer := parts[..n] + [parts[n] + more];
    if n > 0 {
      GlueLast(parts[1..], separators[1..], more);
      assert longer[1..] == parts[1..][..n - 1] + [parts[1..][n - 1] + more];
    }
  }

  lemma {:induction false} GlueMore(parts: seq<string>, separators: string, more: seq<string>, behind: string)
    requires parts != [] && |separators| == |parts| - 1 && |more| == |behind| > 0
    ensures Glue(parts + more, separators + behind) ==
            Glue(parts, separators) + [behind[0]] + Glue(more, behind[1..])
  {
    var all, between := parts + more, separators + behind;
    if |parts| == 1 {
      assert all[1..] == more && between[1..] == behind[1..];
    } else {
      GlueMore(parts[1..], separators[1..], more, behind);
      assert all[1..] == parts[1..] + more && between[1..] == separators[1..] + behind;
    }
  }

  lemma {:induction false} GlueBlanks(behind: string, last: char)
    requires behind != ""
    ensures [behind[0]] + Glue(seq<string>(|behind| - 1, _ => "") + [[last]], behind[1..]) == behind + [last]
    decreases |behind|
  {
    var blanks := seq<string>(|behind| - 1, _ => "");
    if |behind| == 1 {
      assert blanks + [[last]] == [[last]];
    } else {
      GlueBlanks(behind[1..], last);
      var rest := Glue(seq<string>(|behind[1..]| - 1, _ => "") + [[last]], behind[1..][1..]);
      assert (blanks + [[last]])[1..] == seq<string>(|behind[1..]| - 1, _ => "") + [[last]];
      assert Glue(blanks + [[last]], behind[1..]) == "" + [behind[1]] + rest;
      assert "" + [behind[1]] + rest == [behind[1]] + rest == behind[1..] + [last];
      assert [behind[0]] + (behind[1..] + [last]) == behind + [last];
    }
  }

  // ---- Nested and configured roots

  lemma {:induction false} JoinOfConcat(a: seq<string>, b: seq<string>)
    requires a != [] && b != []
    ensures Join(a + b) == Join(a) + "/" + Join(b)
  {
    if |a| == 1 {
      assert (a + b)[1..] == b;
    } else {
      JoinOfConcat(a[1..], b);
      assert (a + b)[1..] == a[1..] + b;
      assert a[0] + "/" + (Join(a[1..]) + "/" + Join(b)) == (a[0] + "/" + Join(a[1..])) + "/" + Join(b);
    }
  }

  lemma SplitOfNested(root: string, name: string)
    ensures Split(root + "/" + name) == Split(root) + Split(name)
  {
    JoinOfSplit(root);
    JoinOfSplit(name);
    JoinOfConcat(Split(root), Split(name));
    SplitOfJoin(Split(root) + Split(name));
  }

  /** The root is the components of the configured one, what was behind the last of them left away; a root of
      nothing but separators stands for the directory itself. */
  lemma RootOfSpelled(configured: string, front: seq<string>, separators: string, trail: string)
    requires AllSeparators(separators) && AllSeparators(trail) && front != [] && |separators| == |front| - 1
    requires (forall part :: part in front ==> Plain(part)) && front[|front| - 1] != ""
    requires configured == Glue(front, separators) + trail
    ensures Root(configured) == Join(front) && Split(Root(configured)) == front
  {
    SlashedConcat(Glue(front, separators), trail);
    SlashedSeparators(trail);
    SlashedGlue(front, separators);
    assert front[|front| - 1] in front;
    LastOfJoin(front);
    RStrippedOfPadded(Join(front), |trail|);
    SplitOfJoin(front);
  }

  lemma RootOfSeparators(configured: string)
    requires AllSeparators(configured)
    ensures Root(configured) == "."
  {
    SlashedSeparators(configured);
    RStrippedOfPadded("", |configured|);
    assert "" + seq(|configured|, _ => '/') == seq(|configured|, _ => '/');
  }
}
