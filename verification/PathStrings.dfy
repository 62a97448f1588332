/** Strings as Python compares and sorts them. */
module PathStrings {

  /** `a < b` on strings: by code point, a proper prefix first. */
  predicate Less(a: string, b: string) {
    b != "" && (a == "" || a[0] < b[0] || (a[0] == b[0] && Less(a[1..], b[1..])))
  }

  lemma SameStart(a: string, b: string)
    ensures forall k: nat :: 0 < k <= |a| && k < |b| && a[..k] == b[..k] ==> a[0] == b[0]
  {
    forall k: nat | 0 < k <= |a| && k < |b| && a[..k] == b[..k] ensures a[0] == b[0] {
      assert a[0] == a[..k][0] && b[0] == b[..k][0];
    }
  }

  /** The first place where they differ decides; without one, the shorter string comes first. */
  lemma {:induction false} LessIff(a: string, b: string)
    ensures Less(a, b) <==>
            exists k: nat :: k <= |a| && k < |b| && a[..k] == b[..k] && (k == |a| || a[k] < b[k])
  {
    if a != "" && b != "" && a[0] == b[0] {
      LessIff(a[1..], b[1..]);
      if Less(a, b) {
        var k: nat :| k <= |a[1..]| && k < |b[1..]| && a[1..][..k] == b[1..][..k] &&
                      (k == |a[1..]| || a[1..][k] < b[1..][k]);
        assert a[..k + 1] == [a[0]] + a[1..][..k] && b[..k + 1] == [b[0]] + b[1..][..k];
        assert k + 1 <= |a| && k + 1 < |b| && a[..k + 1] == b[..k + 1];
      }
      if k: nat :| k <= |a| && k < |b| && a[..k] == b[..k] && (k == |a| || a[k] < b[k]) {
        assert a[1..][..k - 1] == a[..k][1..] && b[1..][..k - 1] == b[..k][1..];
      }
    } else if b != "" {
      assert a[..0] == b[..0];
      SameStart(a, b);
    }
  }

  lemma {:induction false} LessIsTransitive(a: string, b: string, c: string)
    requires Less(a, b) && Less(b, c)
    ensures Less(a, c)
  {
    if a != "" && a[0] == b[0] == c[0] {
      LessIsTransitive(a[1..], b[1..], c[1..]);
    }
  }

  lemma {:induction false} LessIsTotal(a: string, b: string)
    ensures Less(a, b) || a == b || Less(b, a)
    ensures !(Less(a, b) && Less(b, a)) && !Less(a, a)
  {
    if a != "" && b != "" && a[0] == b[0] {
      LessIsTotal(a[1..], b[1..]);
      assert a == [a[0]] + a[1..] && b == [b[0]] + b[1..];
    }
    if a != "" {
      LessIsTotal(a[1..], a[1..]);
    }
  }

  ghost predicate Ascending(s: seq<string>) {
    forall i, j :: 0 <= i < j < |s| ==> Less(s[i], s[j])
  }

  ghost predicate IsLeast(p: string, paths: set<string>) {
    p in paths && forall q :: q in paths ==> q == p || Less(p, q)
  }

  lemma {:induction false} LeastExists(paths: set<string>) returns (least: string)
    requires paths != {}
    ensures IsLeast(least, paths)
  {
    var p :| p in paths;
    least := p;
    if paths != {p} {
      assert paths == {p} + (paths - {p});
      var q := LeastExists(paths - {p});
      LessIsTotal(p, q);
      least := if Less(p, q) then p else q;
      forall r | r in paths ensures r == least || Less(least, r) {
        if r != p && r != q && least == p { LessIsTransitive(p, q, r); }
      }
    }
  }

  /** `sorted(paths)`. */
  method Sorted(paths: set<string>) returns (sorted: seq<string>)
    ensures Ascending(sorted)
    ensures forall p :: p in sorted <==> p in paths
  {
    sorted := [];
    var rest := paths;
    while rest != {}
      invariant Ascending(sorted)
      invariant forall p :: p in sorted || p in rest <==> p in paths
      invariant forall i, q :: 0 <= i < |sorted| && q in rest ==> Less(sorted[i], q)
      decreases |rest|
    {
      var least := TakeLeast(rest);
      sorted := sorted + [least];
      rest := rest - {least};
    }
  }

  method TakeLeast(paths: set<string>) returns (least: string)
    requires paths != {}
    ensures IsLeast(least, paths)
  {
    ghost var found := LeastExists(paths);
    least :| least in paths && forall q :: q in paths ==> q == least || Less(least, q);
  }

  /** A set of paths has only one sorted list, so what is sorted and has the right members is determined. */
  lemma {:induction false} SortedIsUnique(a: seq<string>, b: seq<string>)
    requires Ascending(a) && Ascending(b)
    requires forall p :: p in a <==> p in b
    ensures a == b
  {
    assert a != [] ==> a[0] in b;
    assert b != [] ==> b[0] in a;
    if a != [] {
      HeadIsLeast(a, b[0]);
      HeadIsLeast(b, a[0]);
      LessIsTotal(a[0], b[0]);
      forall p ensures p in a[1..] <==> p in b[1..] {
        TailDropsHead(a, p);
        TailDropsHead(b, p);
      }
      SortedIsUnique(a[1..], b[1..]);
      assert a == [a[0]] + a[1..] && b == [b[0]] + b[1..];
    }
  }

  /** The sorted list of a set of paths, as a value. */
  ghost function SortedSeq(paths: set<string>): (s: seq<string>)
    ensures Ascending(s)
    ensures forall p :: p in s <==> p in paths
    decreases |paths|
  {
    if paths == {} then []
    else
      var found := LeastOf(paths);
      var rest := SortedSeq(paths - {found});
      assert forall i | 0 <= i < |rest| :: rest[i] in paths - {found};
      [found] + rest
  }

  ghost function LeastOf(paths: set<string>): (least: string)
    requires paths != {}
    ensures IsLeast(least, paths)
  {
    SomeLeast(paths);
    var least :| IsLeast(least, paths);
    least
  }

  lemma SomeLeast(paths: set<string>)
    requires paths != {}
    ensures exists least :: IsLeast(least, paths)
  {
    var least := LeastExists(paths);
  }

  lemma HeadIsLeast(s: seq<string>, p: string)
    requires Ascending(s) && p in s
    ensures p == s[0] || Less(s[0], p)
  {
    var i :| 0 <= i < |s| && s[i] == p;
  }

  lemma TailDropsHead(s: seq<string>, p: string)
    requires Ascending(s) && s != []
    ensures p in s[1..] <==> p in s && p != s[0]
  {
    LessIsTotal(p, p);
    if p in s && p != s[0] {
      var i :| 0 <= i < |s| && s[i] == p;
      assert s[1..][i - 1] == p;
    }
    if p in s[1..] {
      var i :| 0 <= i < |s| - 1 && s[1..][i] == p;
      assert s[i + 1] == p;
    }
  }
}
