/** The line window that `read_file` selects, and reading a file window by window. */
module LineWindows {
  import opened Model

  datatype Request = Request(startLine: Option<nat>, endLine: Option<nat>, maxLines: Option<nat>)

  /** Line numbers and counts are at least 1 when given. */
  predicate ValidRequest(r: Request) {
    && (r.startLine.Some? ==> r.startLine.value >= 1)
    && (r.endLine.Some? ==> r.endLine.value >= 1)
    && (r.maxLines.Some? ==> r.maxLines.value >= 1)
  }

  datatype Window = Window(selected: seq<string>, startLine: Option<nat>, endLine: Option<nat>,
                    nextStartLine: Option<nat>)

  /** `lines[start:end]` */
  function Slice(lines: seq<string>, start: nat, end: nat): seq<string> {
    if start >= |lines| || end <= start then [] else lines[start..Min(end, |lines|)]
  }

  /** `None` when the arguments are refused. */
  method ReadWindow(lines: seq<string>, r: Request) returns (window: Option<Window>)
    requires ValidRequest(r)
    ensures window == Select(lines, r)
    ensures window == None <==>
              (r.endLine.Some? && r.maxLines.Some?) ||
                  (r.startLine.Some? && r.endLine.Some? && r.endLine.value < r.startLine.value)
  {
    if r.endLine.Some? && r.maxLines.Some? { return None; }
    if r.startLine.Some? && r.endLine.Some? && r.endLine.value < r.startLine.value { return None; }
    var startIndex := if r.startLine.Some? then r.startLine.value - 1 else 0;
    var endIndex;
    if r.maxLines.Some? {
      endIndex := Min(|lines|, startIndex + r.maxLines.value);
    } else {
      endIndex := if r.endLine.Some? then r.endLine.value else |lines|;
    }
    var selected := Slice(lines, startIndex, endIndex);
    window := Some(Window(selected,
                          if selected != [] then Some(startIndex + 1) else None,
                          if selected != [] then Some(endIndex) else None,
                          if endIndex < |lines| then Some(endIndex + 1) else None));
  }

  /** The window for a request, by line numbers counted from 1. */
  function Select(lines: seq<string>, r: Request): Option<Window>
    requires ValidRequest(r)
  {
    var start := if r.startLine.Some? then r.startLine.value else 1;
    if r.endLine.Some? && (r.maxLines.Some? || (r.startLine.Some? && r.endLine.value < start)) then None
    else
      var end := if r.maxLines.Some? then Min(|lines|, start - 1 + r.maxLines.value)
                 else if r.endLine.Some? then r.endLine.value else |lines|;
      var selected := Slice(lines, start - 1, end);
      Some(Window(selected,
                  if selected != [] then Some(start) else None,
                  if selected != [] then Some(end) else None,
                  if end < |lines| then Some(end + 1) else None))
  }

  /** The selected lines are the file's lines from the start on, and as many of them as the request allows. */
  lemma WindowIsMaximal(lines: seq<string>, r: Request)
    requires ValidRequest(r) && Select(lines, r).Some?
    ensures var w, start := Select(lines, r).value, if r.startLine.Some? then r.startLine.value else 1;
            && (forall i :: 0 <= i < |w.selected| ==> start - 1 + i < |lines| && w.selected[i] == lines[start - 1 + i])
            && (r.maxLines.Some? ==> |w.selected| <= r.maxLines.value)
            && (r.endLine.Some? ==> start - 1 + |w.selected| <= Max(r.endLine.value, start - 1))
            && (start - 1 + |w.selected| < |lines| ==>
                  || (r.maxLines.Some? && |w.selected| == r.maxLines.value)
                  || (r.endLine.Some? && start - 1 + |w.selected| == r.endLine.value))
            && (w.nextStartLine.Some? <==> start - 1 + |w.selected| < |lines|)
            && (w.nextStartLine.Some? ==> w.nextStartLine.value == start + |w.selected|)
            && w.startLine == (if w.selected != [] then Some(start) else None)
  {
  }

  /** Read on from `start` with `maxLines` at a time, passing on `next_start_line`, and put the lines together. */
  function ReadOn(lines: seq<string>, start: nat, maxLines: nat): seq<string>
    requires start >= 1 && maxLines >= 1
    decreases |lines| - start
  {
    var w := Select(lines, Request(Some(start), None, Some(maxLines))).value;
    if w.nextStartLine.Some? && start <= |lines| then w.selected + ReadOn(lines, w.nextStartLine.value, maxLines)
    else w.selected
  }

  /** Following `next_start_line` reads every line from the start on exactly once, whatever the window size. */
  lemma {:induction false} ReadingOnReadsAll(lines: seq<string>, start: nat, maxLines: nat)
    requires start >= 1 && maxLines >= 1
    ensures ReadOn(lines, start, maxLines) == if start > |lines| then [] else lines[start - 1..]
    decreases |lines| - start
  {
    var end := Min(|lines|, start - 1 + maxLines);
    if start <= |lines| && end < |lines| {
      ReadingOnReadsAll(lines, end + 1, maxLines);
      assert lines[start - 1..] == lines[start - 1..end] + lines[end..];
    }
  }

  /** The reported end is the last line selected exactly when the requested end is in the file. */
  lemma ReportedEndIff(lines: seq<string>, r: Request)
    requires ValidRequest(r) && Select(lines, r).Some? && Select(lines, r).value.selected != []
    ensures var w := Select(lines, r).value;
            && (w.endLine.value == w.startLine.value + |w.selected| - 1 <==>
                  (r.endLine.Some? ==> r.endLine.value <= |lines|))
            && (r.endLine.Some? ==> w.endLine == r.endLine)
  {
  }
}
