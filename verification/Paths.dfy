/** The string operations on paths: `replace`, `split`, `join`, `strip`. */
module Paths {

  /** `p.replace("\\", "/")` */
  function Slashed(p: string): (r: string)
    ensures '\\' !in r
    ensures '\\' !in p ==> r == p
  {
    seq(|p|, i requires 0 <= i < |p| => if p[i] == '\\' then '/' else p[i])
  }

  function FirstSlash(p: string): (k: nat)
    ensures k <= |p| && '/' !in p[..k] && (k < |p| ==> p[k] == '/')
  {
    if p == "" || p[0] == '/' then 0
    else
      var k := 1 + FirstSlash(p[1..]);
      assert p[..k] == [p[0]] + p[1..][..k - 1];
      k
  }

  /** `p.split("/")` */
  function Split(p: string): (parts: seq<string>)
    ensures parts != []
    ensures forall part :: part in parts ==> '/' !in part
    decreases |p|
  {
    var k := FirstSlash(p);
    if k == |p| then assert p[..k] == p; [p] else [p[..k]] + Split(p[k + 1..])
  }

  /** `"/".join(parts)` */
  function Join(parts: seq<string>): string {
    if parts == [] then ""
    else if |parts| == 1 then parts[0]
    else parts[0] + "/" + Join(parts[1..])
  }

  lemma {:induction false} FirstSlashIs(a: string, b: string)
    requires '/' !in a
    ensures FirstSlash(a) == |a| && Split(a) == [a]
    ensures FirstSlash(a + "/" + b) == |a| && Split(a + "/" + b) == [a] + Split(b)
  {
    var p := a + "/" + b;
    if a != "" {
      FirstSlashIs(a[1..], b);
      assert p[1..] == a[1..] + "/" + b;
    }
    assert p[..|a|] == a && p[|a| + 1..] == b;
  }

  lemma SplitStart(p: string)
    ensures p == "" || p[0] == '/' ==> "" in Split(p)
  {
    if p == "" || p[0] == '/' {
      assert Split(p)[0] == "";
    }
  }

  lemma {:induction false} SplitOfJoin(parts: seq<string>)
    requires parts != [] && forall part :: part in parts ==> '/' !in part
    ensures Split(Join(parts)) == parts
  {
    if |parts| == 1 {
      FirstSlashIs(parts[0], "");
    } else {
      var rest := Join(parts[1..]);
      FirstSlashIs(parts[0], rest);
      SplitOfJoin(parts[1..]);
    }
  }

  lemma JoinOfCons(part: string, parts: seq<string>)
    requires parts != []
    ensures Join([part] + parts) == part + "/" + Join(parts)
  {
    assert ([part] + parts)[1..] == parts;
  }

  lemma {:induction false} JoinOfSplit(p: string)
    ensures Join(Split(p)) == p
    decreases |p|
  {
    var k := FirstSlash(p);
    if k < |p| {
      JoinOfSplit(p[k + 1..]);
      JoinOfCons(p[..k], Split(p[k + 1..]));
      AtSlash(p, k);
    }
  }

  lemma AtSlash(p: string, k: nat)
    requires k < |p| && p[k] == '/'
    ensures p[..k] + "/" + p[k + 1..] == p
  {
  }

  lemma {:induction false} CharsOfJoin(parts: seq<string>, c: char)
    requires c != '/'
    ensures c in Join(parts) <==> exists part :: part in parts && c in part
  {
    if |parts| > 1 {
      CharsOfJoin(parts[1..], c);
      assert parts == [parts[0]] + parts[1..];
    }
  }

  /** `p.rstrip("/")` */
  function RStripped(p: string): (r: string)
    ensures r <= p && (r == "" || r[|r| - 1] != '/')
    ensures p == "" || p[|p| - 1] != '/' ==> r == p
  {
    if p != "" && p[|p| - 1] == '/' then RStripped(p[..|p| - 1]) else p
  }

  /** `p.strip("/")` */
  function Stripped(p: string): (r: string)
    ensures r == "" || (r[0] != '/' && r[|r| - 1] != '/')
    ensures p == "" || (p[0] != '/' && p[|p| - 1] != '/') ==> r == p
    ensures forall c :: c in r ==> c in p
  {
    if p != "" && p[0] == '/' then Stripped(p[1..]) else RStripped(p)
  }

  /** A configured root: slashes only, none at the end, never empty. */
  function Root(root: string): (r: string)
    ensures r != "" && r[|r| - 1] != '/' && '\\' !in r
  {
    var stripped := RStripped(Slashed(root));
    if stripped == "" then "." else stripped
  }
}
