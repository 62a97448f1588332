/** The table of terminal frames: `TerminalFrameRepository`.  Rows of all sessions, in commit order. */
module TerminalFrames {
  import opened Model

  datatype FrameKind = OUTPUT | INPUT | RESIZE | MARKER | REDACTED

  datatype Frame = Frame(sessionId: string, number: nat, offset: nat, kind: FrameKind, data: string)

  /** `WHERE session_id = id`. */
  function SessionFrames(rows: seq<Frame>, id: string): seq<Frame> {
    if rows == [] then []
    else
      var last := rows[|rows| - 1];
      var before := SessionFrames(rows[..|rows| - 1], id);
      if last.sessionId == id then before + [last] else before
  }

  /** `ORDER BY seq DESC LIMIT 1`. */
  function Latest(frames: seq<Frame>): Option<Frame> {
    if frames == [] then None
    else
      var last := frames[|frames| - 1];
      match Latest(frames[..|frames| - 1])
      case None => Some(last)
      case Some(f) => if f.number > last.number then Some(f) else Some(last)
  }

  function DataLength(frames: seq<Frame>): nat {
    if frames == [] then 0 else DataLength(frames[..|frames| - 1]) + |frames[|frames| - 1].data|
  }

  /** All terminal output of a session. */
  function OutputText(frames: seq<Frame>): string {
    if frames == [] then ""
    else
      var last := frames[|frames| - 1];
      var before := OutputText(frames[..|frames| - 1]);
      if last.kind == OUTPUT then before + last.data else before
  }

  /** `output_resume_offset`: the sum of the lengths of the OUTPUT frames. */
  function OutputResumeOffset(frames: seq<Frame>): nat {
    if frames == [] then 0
    else
      var last := frames[|frames| - 1];
      OutputResumeOffset(frames[..|frames| - 1]) + if last.kind == OUTPUT then |last.data| else 0
  }

  /** `list_frames`: those numbered above `after`, at most `limit` of them. */
  function ListFrames(frames: seq<Frame>, after: Option<int>, limit: nat): seq<Frame> {
    var above := NumberedAbove(frames, after);
    if |above| <= limit then above else above[..limit]
  }

  function NumberedAbove(frames: seq<Frame>, after: Option<int>): seq<Frame> {
    if frames == [] then []
    else
      var last := frames[|frames| - 1];
      var before := NumberedAbove(frames[..|frames| - 1], after);
      if after == None || last.number > after.value then before + [last] else before
  }

  ghost predicate Dense(frames: seq<Frame>) {
    forall i :: 0 <= i < |frames| ==> frames[i].number == i
  }

  ghost predicate PrefixSums(frames: seq<Frame>) {
    forall i :: 0 <= i < |frames| ==> frames[i].offset == DataLength(frames[..i])
  }

  /** Numbers are dense from 0, offsets are prefix sums over all frames, whatever their kind. */
  ghost predicate WellNumbered(frames: seq<Frame>) {
    Dense(frames) && PrefixSums(frames)
  }

  lemma SessionFramesSnoc(rows: seq<Frame>, row: Frame, id: string)
    ensures row.sessionId == id ==> SessionFrames(rows + [row], id) == SessionFrames(rows, id) + [row]
    ensures row.sessionId != id ==> SessionFrames(rows + [row], id) == SessionFrames(rows, id)
  {
    assert (rows + [row])[..|rows|] == rows;
  }

  lemma OutputTextSnoc(frames: seq<Frame>, frame: Frame)
    ensures OutputText(frames + [frame]) == OutputText(frames) + if frame.kind == OUTPUT then frame.data else ""
  {
    assert (frames + [frame])[..|frames|] == frames;
  }

  lemma {:induction false} LatestIsLast(frames: seq<Frame>)
    requires Dense(frames)
    ensures Latest(frames) == if frames == [] then None else Some(frames[|frames| - 1])
  {
    if frames != [] { LatestIsLast(frames[..|frames| - 1]); }
  }

  lemma NextFrameFits(frames: seq<Frame>, frame: Frame)
    requires WellNumbered(frames)
    requires frame.number == |frames| && frame.offset == DataLength(frames)
    ensures WellNumbered(frames + [frame])
  {
    var all := frames + [frame];
    forall i | 0 <= i < |all| ensures all[i].offset == DataLength(all[..i]) {
      assert all[..i] == frames[..i];
      if i == |frames| { assert frames[..i] == frames; }
    }
  }

  /** The frames of a session after `append`. */
  function Appended(id: string, frames: seq<Frame>, kind: FrameKind, data: string): seq<Frame> {
    frames + [Frame(id, |frames|, DataLength(frames), kind, data)]
  }

  lemma AppendedIs(id: string, frames: seq<Frame>, kind: FrameKind, data: string)
    requires WellNumbered(frames)
    ensures WellNumbered(Appended(id, frames, kind, data))
    ensures OutputText(Appended(id, frames, kind, data)) == OutputText(frames) + if kind == OUTPUT then data else ""
  {
    var frame := Frame(id, |frames|, DataLength(frames), kind, data);
    NextFrameFits(frames, frame);
    OutputTextSnoc(frames, frame);
  }

  /** The resume offset is the length of the persisted output. */
  lemma {:induction false} ResumeOffsetIsLength(frames: seq<Frame>)
    ensures OutputResumeOffset(frames) == |OutputText(frames)|
  {
    if frames != [] { ResumeOffsetIsLength(frames[..|frames| - 1]); }
  }

  /** A page is a slice: it starts right after `after`, without holes, and is short only at the end. */
  lemma PageIsSlice(frames: seq<Frame>, after: Option<int>, limit: nat)
    requires WellNumbered(frames)
    ensures var lo := FirstAbove(after);
            ListFrames(frames, after, limit) ==
            if lo >= |frames| then [] else if |frames| - lo <= limit then frames[lo..] else frames[lo..lo + limit]
  {
    AboveIsSuffix(frames, after);
  }

  function FirstAbove(after: Option<int>): nat {
    if after == None || after.value < 0 then 0 else after.value + 1
  }

  lemma {:induction false} AboveIsSuffix(frames: seq<Frame>, after: Option<int>)
    requires Dense(frames)
    ensures NumberedAbove(frames, after) == if FirstAbove(after) >= |frames| then [] else frames[FirstAbove(after)..]
  {
    if frames != [] {
      AboveIsSuffix(frames[..|frames| - 1], after);
      if FirstAbove(after) < |frames| {
        SuffixOfFront(frames, FirstAbove(after));
      }
    }
  }

  lemma SuffixOfFront<T>(s: seq<T>, lo: nat)
    requires lo < |s|
    ensures s[lo..] == (if lo >= |s| - 1 then [] else s[..|s| - 1][lo..]) + [s[|s| - 1]]
  {
  }

  /** `"".join(reversed(chunks))`. */
  function JoinReversed(chunks: seq<string>): string {
    if chunks == [] then "" else chunks[|chunks| - 1] + JoinReversed(chunks[..|chunks| - 1])
  }

  lemma JoinReversedSnoc(chunks: seq<string>, chunk: string)
    ensures JoinReversed(chunks + [chunk]) == chunk + JoinReversed(chunks)
  {
    assert (chunks + [chunk])[..|chunks|] == chunks;
  }

  lemma OutputTextTake(frames: seq<Frame>, k: nat)
    requires k < |frames|
    ensures OutputText(frames[..k + 1]) ==
            OutputText(frames[..k]) + if frames[k].kind == OUTPUT then frames[k].data else ""
  {
    assert frames[..k + 1] == frames[..k] + [frames[k]];
    OutputTextSnoc(frames[..k], frames[k]);
  }

  /** `tail_text`: walk the OUTPUT frames from the newest back, stopping as soon as enough is gathered. */
  method TailOf(frames: seq<Frame>, limitChars: nat) returns (text: string)
    requires limitChars > 0
    ensures |text| == Min(|OutputText(frames)|, limitChars)
    ensures text == OutputText(frames)[|OutputText(frames)| - |text|..]
  {
    var chunks, total := [], 0;
    var k := |frames|;
    assert frames[..k] == frames;
    while k > 0
      invariant 0 <= k <= |frames|
      invariant OutputText(frames) == OutputText(frames[..k]) + JoinReversed(chunks)
      invariant total == |JoinReversed(chunks)| && total < limitChars
    {
      k := k - 1;
      OutputTextTake(frames, k);
      if frames[k].kind != OUTPUT { continue; }
      JoinReversedSnoc(chunks, frames[k].data);
      chunks := chunks + [frames[k].data];
      total := total + |frames[k].data|;
      if total >= limitChars { break; }
    }
    assert k == 0 ==> OutputText(frames[..k]) == "";
    text := JoinReversed(chunks);
    if |text| > limitChars { text := text[|text| - limitChars..]; }
  }

  class TerminalFrameRepository {
    var rows: seq<Frame>

    constructor ()
      ensures rows == []
      ensures Valid()
    {
      rows := [];
      new;
      forall id ensures WellNumbered(Frames(id)) {}
    }

    function Frames(id: string): seq<Frame>
      reads this
    {
      SessionFrames(rows, id)
    }

    ghost predicate Valid()
      reads this
    {
      forall id: string :: WellNumbered(Frames(id))
    }

    /** `append`, under the append lock. */
    method Append(id: string, kind: FrameKind, data: string) returns (frame: Frame)
      requires Valid()
      modifies this
      ensures Valid()
      ensures rows == old(rows) + [frame]
      ensures Frames(id) == old(Frames(id)) + [frame] == Appended(id, old(Frames(id)), kind, data)
      ensures forall other | other != id :: Frames(other) == old(Frames(other))
    {
      var latest := Latest(Frames(id));
      LatestIsLast(Frames(id));
      var number := if latest == None then 0 else latest.value.number + 1;
      var offset := if latest == None then 0 else latest.value.offset + |latest.value.data|;
      frame := Frame(id, number, offset, kind, data);
      assert WellNumbered(Frames(id));
      rows := rows + [frame];
      forall other
        ensures other == id ==> Frames(other) == old(Frames(other)) + [frame]
        ensures other != id ==> Frames(other) == old(Frames(other))
      {
        SessionFramesSnoc(old(rows), frame, other);
      }
      NextFrameFits(old(Frames(id)), frame);
    }

    /** `last_seq`. */
    method LastSeq(id: string) returns (last: Option<nat>)
      requires Valid()
      ensures last == if Frames(id) == [] then None else Some(|Frames(id)| - 1)
    {
      LatestIsLast(Frames(id));
      var latest := Latest(Frames(id));
      last := if latest == None then None else Some(latest.value.number);
    }
  }
}
