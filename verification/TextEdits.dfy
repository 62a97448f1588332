/** `str.count` and `str.replace` as `edit_file` uses them, and what they say about the places of a text. */
module TextEdits {

  predicate OccursAt(s: string, text: string, i: int) {
    0 <= i <= |s| && text <= s[i..]
  }

  lemma OccursInRest(s: string, text: string, n: nat, k: nat)
    requires n + k <= |s|
    ensures OccursAt(s[n..], text, k) <==> OccursAt(s, text, n + k)
  {
    assert s[n..][k..] == s[n + k..];
  }

  /** `s.count(text)`: occurrences from the left that do not overlap. */
  function Count(s: string, text: string): nat
    requires text != ""
    decreases |s|
  {
    if s == "" then 0
    else if text <= s then 1 + Count(s[|text|..], text)
    else Count(s[1..], text)
  }

  /** `s.replace(text, other, limit)` */
  function Replace(s: string, text: string, other: string, limit: nat): string
    requires text != ""
    decreases |s|
  {
    if limit == 0 || s == "" then s
    else if text <= s then other + Replace(s[|text|..], text, other, limit - 1)
    else [s[0]] + Replace(s[1..], text, other, limit)
  }

  /** The leftmost occurrence, if any; otherwise the length. */
  function First(s: string, text: string): (i: nat)
    requires text != ""
    ensures i <= |s|
    decreases |s|
  {
    if s == "" || text <= s then 0 else 1 + First(s[1..], text)
  }

  lemma NoneBefore(s: string, text: string, i: nat)
    requires s != "" && !(text <= s) && forall j :: OccursAt(s[1..], text, j) ==> i <= j
    ensures forall j :: OccursAt(s, text, j) ==> 1 + i <= j
  {
    assert s[0..] == s;
    forall j | OccursAt(s, text, j) ensures 1 + i <= j {
      OccursInRest(s, text, 1, j - 1);
    }
  }

  lemma {:induction false} NoneBeforeFirst(s: string, text: string)
    requires text != ""
    ensures forall j :: OccursAt(s, text, j) ==> First(s, text) <= j
    decreases |s|
  {
    if s != "" && !(text <= s) {
      NoneBeforeFirst(s[1..], text);
      NoneBefore(s, text, First(s[1..], text));
    }
  }

  lemma {:induction false} FirstIsCounted(s: string, text: string)
    requires text != ""
    ensures First(s, text) < |s| <==> Count(s, text) > 0
    decreases |s|
  {
    if s != "" && !(text <= s) { FirstIsCounted(s[1..], text); }
  }

  lemma {:induction false} FirstOccurs(s: string, text: string)
    requires text != "" && Count(s, text) > 0
    ensures OccursAt(s, text, First(s, text))
    decreases |s|
  {
    if text <= s {
      assert s[0..] == s;
    } else {
      FirstOccurs(s[1..], text);
      OccursInRest(s, text, 1, First(s[1..], text));
    }
  }

  lemma {:induction false} CountFromFirst(s: string, text: string)
    requires text != "" && Count(s, text) > 0
    ensures First(s, text) + |text| <= |s|
    ensures Count(s, text) == 1 + Count(s[First(s, text) + |text|..], text)
    decreases |s|
  {
    if !(text <= s) {
      CountFromFirst(s[1..], text);
      var i := First(s[1..], text);
      assert s[1..][i + |text|..] == s[1 + i + |text|..];
    }
  }

  lemma FirstIsLeftmost(s: string, text: string)
    requires text != ""
    ensures forall j :: OccursAt(s, text, j) ==> First(s, text) <= j
    ensures First(s, text) < |s| <==> Count(s, text) > 0
    ensures Count(s, text) > 0 ==>
              OccursAt(s, text, First(s, text)) && Count(s, text) == 1 + Count(s[First(s, text) + |text|..], text)
  {
    NoneBeforeFirst(s, text);
    FirstIsCounted(s, text);
    if Count(s, text) > 0 {
      FirstOccurs(s, text);
      CountFromFirst(s, text);
    }
  }

  /** A text is not found exactly when it occurs nowhere. */
  lemma NotFoundIff(s: string, text: string)
    requires text != ""
    ensures Count(s, text) == 0 <==> !Occurs(s, text)
  {
    FirstIsLeftmost(s, text);
  }

  ghost predicate Occurs(s: string, text: string) {
    exists i :: OccursAt(s, text, i)
  }

  ghost predicate AllBefore(s: string, text: string, n: nat) {
    forall j :: OccursAt(s, text, j) ==> j < n
  }

  lemma FirstSplits(s: string, text: string, n: nat)
    requires text != "" && Count(s, text) > 0 && n == First(s, text) + |text|
    ensures n <= |s|
    ensures Count(s, text) == 1 <==> Count(s[n..], text) == 0
  {
    FirstIsLeftmost(s, text);
  }

  lemma NoneAfterIff(s: string, text: string, n: nat)
    requires text != "" && n <= |s|
    ensures Count(s[n..], text) == 0 <==> AllBefore(s, text, n)
  {
    NotFoundIff(s[n..], text);
    forall j: int | n <= j <= |s| ensures OccursAt(s, text, j) <==> OccursAt(s[n..], text, j - n) {
      OccursInRest(s, text, n, j - n);
    }
    forall k | OccursAt(s[n..], text, k) ensures OccursAt(s, text, n + k) {
      OccursInRest(s, text, n, k);
    }
  }

  /** An edit is unambiguous exactly when the text occurs and every occurrence overlaps the leftmost one. */
  lemma UnambiguousIff(s: string, text: string)
    requires text != ""
    ensures Count(s, text) == 1 <==> Occurs(s, text) && AllBefore(s, text, First(s, text) + |text|)
  {
    NotFoundIff(s, text);
    if Occurs(s, text) { UnambiguousIfFound(s, text, First(s, text) + |text|); }
  }

  lemma UnambiguousIfFound(s: string, text: string, n: nat)
    requires text != "" && Count(s, text) > 0 && n == First(s, text) + |text|
    ensures Count(s, text) == 1 <==> AllBefore(s, text, n)
  {
    FirstSplits(s, text, n);
    NoneAfterIff(s, text, n);
  }

  /** So a text with two places can pass for unambiguous. */
  lemma OverlapIsNotAmbiguous()
    ensures Count("aaa", "aa") == 1 && OccursAt("aaa", "aa", 0) && OccursAt("aaa", "aa", 1)
  {
    assert "aaa"[2..] == "a" && "a"[1..] == "";
    assert "aa" <= "aaa"[0..] && "aa" <= "aaa"[1..];
  }

  /** Replacing once replaces the leftmost occurrence and leaves everything else. */
  lemma {:induction false} ReplaceOnce(s: string, text: string, other: string)
    requires text != "" && Count(s, text) > 0
    ensures var i := First(s, text);
            i + |text| <= |s| && Replace(s, text, other, 1) == s[..i] + other + s[i + |text|..]
    decreases |s|
  {
    if text <= s {
      ReplaceHere(s, text, other);
    } else {
      ReplaceOnce(s[1..], text, other);
      SpliceInRest(s, First(s[1..], text), |text|, other);
    }
  }

  // ---- Replacing all

  /** Pieces with one text between each two. */
  ghost function Interleaved(pieces: seq<string>, between: string): string
    requires pieces != []
  {
    if |pieces| == 1 then pieces[0] else pieces[0] + between + Interleaved(pieces[1..], between)
  }

  /** Going from the left each cut is at the first place of the text, and behind the last one there is none. */
  ghost predicate LeftmostCuts(pieces: seq<string>, text: string)
    requires pieces != []
  {
    if |pieces| == 1 then !Occurs(pieces[0], text)
    else CutsAtFirst(pieces[0], text) && LeftmostCuts(pieces[1..], text)
  }

  /** Replacing all cuts the string at the leftmost places of the text and puts the other text there. */
  lemma {:induction false} ReplaceAllCuts(s: string, text: string, other: string, limit: nat)
    returns (pieces: seq<string>)
    requires text != "" && limit >= Count(s, text)
    ensures |pieces| == Count(s, text) + 1 && LeftmostCuts(pieces, text)
    ensures s == Interleaved(pieces, text) && Replace(s, text, other, limit) == Interleaved(pieces, other)
    decreases |s|
  {
    if Count(s, text) == 0 {
      pieces := [s];
      NotFoundIff(s, text);
      NothingReplaced(s, text, other, limit);
    } else if text <= s {
      var rest := ReplaceAllCuts(s[|text|..], text, other, limit - 1);
      pieces := CutAtOnce(s, text, other, rest);
    } else {
      var rest := ReplaceAllCuts(s[1..], text, other, limit);
      pieces := CutLater(s, text, other, rest);
    }
  }

  /** A string that begins with the text is cut there. */
  lemma CutAtOnce(s: string, text: string, other: string, rest: seq<string>) returns (pieces: seq<string>)
    requires rest != [] && text <= s && s[|text|..] == Interleaved(rest, text) && LeftmostCuts(rest, text)
    ensures |pieces| == |rest| + 1 && LeftmostCuts(pieces, text)
    ensures s == Interleaved(pieces, text) && other + Interleaved(rest, other) == Interleaved(pieces, other)
  {
    pieces := [""] + rest;
    assert pieces[1..] == rest && s == text + s[|text|..];
    assert "" + text == text && "" + other == other;
  }

  /** Another one belongs, with its first character, to the first piece of the rest. */
  lemma CutLater(s: string, text: string, other: string, rest: seq<string>) returns (pieces: seq<string>)
    requires text != "" && s != "" && !(text <= s) && |rest| > 1 && s[1..] == Interleaved(rest, text)
    requires LeftmostCuts(rest, text)
    ensures |pieces| == |rest| && LeftmostCuts(pieces, text)
    ensures s == Interleaved(pieces, text) && [s[0]] + Interleaved(rest, other) == Interleaved(pieces, other)
  {
    pieces := [[s[0]] + rest[0]] + rest[1..];
    LongerFirst(s[0], rest, text);
    LongerFirst(s[0], rest, other);
    NoEarlierCut(s, rest, text);
    assert pieces[1..] == rest[1..];
  }

  /** The first place of the text in `piece + text` is its end. */
  ghost predicate CutsAtFirst(piece: string, text: string) {
    forall j :: OccursAt(piece + text, text, j) ==> j >= |piece|
  }

  lemma {:induction false} NothingReplaced(s: string, text: string, other: string, limit: nat)
    requires text != "" && Count(s, text) == 0
    ensures Replace(s, text, other, limit) == s
    decreases |s|
  {
    if limit > 0 && s != "" { NothingReplaced(s[1..], text, other, limit); }
  }

  lemma LongerFirst(c: char, rest: seq<string>, between: string)
    requires rest != []
    ensures Interleaved([[c] + rest[0]] + rest[1..], between) == [c] + Interleaved(rest, between)
  {
    assert ([[c] + rest[0]] + rest[1..])[1..] == rest[1..];
  }

  /** A string that does not begin with the text has no earlier cut than its rest. */
  lemma NoEarlierCut(s: string, rest: seq<string>, text: string)
    requires text != "" && s != "" && !(text <= s) && |rest| > 1 && s[1..] == Interleaved(rest, text)
    requires CutsAtFirst(rest[0], text)
    ensures CutsAtFirst([s[0]] + rest[0], text)
  {
    var piece := [s[0]] + rest[0];
    var cut := piece + text;
    assert s == cut + Interleaved(rest[1..], text);
    forall j | OccursAt(cut, text, j) ensures j >= |piece| {
      if j > 0 {
        assert cut[1..] == rest[0] + text;
        OccursInRest(cut, text, 1, j - 1);
      }
    }
  }

  lemma ReplaceHere(s: string, text: string, other: string)
    requires text != "" && text <= s
    ensures First(s, text) == 0 && Replace(s, text, other, 1) == s[..0] + other + s[0 + |text|..]
  {
    assert Replace(s[|text|..], text, other, 0) == s[|text|..];
  }

  lemma SpliceInRest(s: string, i: nat, n: nat, other: string)
    requires 1 + i + n <= |s|
    ensures [s[0]] + (s[1..][..i] + other + s[1..][i + n..]) == s[..1 + i] + other + s[1 + i + n..]
  {
    assert [s[0]] + s[1..][..i] == s[..1 + i];
    assert s[1..][i + n..] == s[1 + i + n..];
  }

  /** Replacing all replaces at `Count` places that do not overlap: each changes the length by the same amount. */
  lemma {:induction false} ReplaceAllLength(s: string, text: string, other: string, limit: nat)
    requires text != "" && limit >= Count(s, text)
    ensures |Replace(s, text, other, limit)| == |s| + Count(s, text) * (|other| - |text|)
    decreases |s|
  {
    if s != "" && limit > 0 {
      if text <= s {
        ReplaceAllLength(s[|text|..], text, other, limit - 1);
        Distribute(Count(s[|text|..], text), |other| - |text|);
      } else {
        ReplaceAllLength(s[1..], text, other, limit);
      }
    }
  }

  lemma Distribute(n: nat, d: int)
    ensures (1 + n) * d == d + n * d
  {
  }

  /** Replacing a text by itself changes nothing. */
  lemma {:induction false} ReplaceByItself(s: string, text: string, limit: nat)
    requires text != ""
    ensures Replace(s, text, text, limit) == s
    decreases |s|
  {
    if limit > 0 && s != "" {
      if text <= s {
        ReplaceByItself(s[|text|..], text, limit - 1);
        assert text + s[|text|..] == s;
      } else {
        ReplaceByItself(s[1..], text, limit);
      }
    }
  }
}
