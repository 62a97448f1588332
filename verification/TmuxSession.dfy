/** A durable tmux session: the remote terminal log, the frame table, and the tailers that reattachments
    start (`SSHTmuxSessionHandle._run`, `SessionService.reattach_on_startup`), at await granularity.
    Input and resize frames go to the same table.  Output is one byte per character. */
module TmuxSession {
  import opened Model
  import opened TerminalFrames

  /** `Attaching`: the resume offset has been read, the tailer is not running yet. */
  datatype TailPc = Attaching | Idle | Emitting(chunk: string) | Ended

  /** `seen` is history: how many OUTPUT frames there were when the tailer began to attach, or when it last
      committed one itself. */
  datatype Tailer = Tailer(offset: nat, pc: TailPc, seen: nat)

  /** Where an OUTPUT frame comes from: its range of the remote log, and what its tailer had seen. */
  datatype Range = Range(from: nat, to: nat, seen: nat)

  /** `ranges` is history: the provenance of every OUTPUT frame, in order. */
  datatype State = State(id: string, log: string, frames: seq<Frame>, tailers: seq<Tailer>, ranges: seq<Range>)

  /** `seen` in `ReadLog` is what the stat of the log file over SFTP answers. */
  datatype Action =
    | RemoteWrites(data: string)
    | BeginAttach
    | FinishAttach(i: nat)
    | ReadLog(i: nat, seen: bool)
    | Commit(i: nat)
    | EndTailer(i: nat)
    | OtherFrame(kind: FrameKind, data: string)
    | Crash

  function Created(id: string): State {
    State(id, "", [], [], [])
  }

  predicate Live(t: Tailer) {
    !t.pc.Ended?
  }

  predicate NoneLive(s: State) {
    forall i | 0 <= i < |s.tailers| :: !Live(s.tailers[i])
  }

  function Set(s: State, i: nat, t: Tailer): State
    requires i < |s.tailers|
  {
    s.(tailers := s.tailers[i := t])
  }

  function TailerStep(s: State, a: Action): State
    requires a.FinishAttach? || a.ReadLog? || a.Commit? || a.EndTailer?
    requires a.i < |s.tailers|
  {
    var t := s.tailers[a.i];
    match a
    case FinishAttach(i) => if t.pc.Attaching? then Set(s, i, t.(pc := Idle)) else s
    case ReadLog(i, seen) =>
      // `_drain_log`: everything beyond the offset
      if t.pc.Idle? && seen && |s.log| > t.offset then Set(s, i, t.(pc := Emitting(s.log[t.offset..]))) else s
    case Commit(i) =>
      if !t.pc.Emitting? then s
      else
        var to := t.offset + |t.pc.chunk|;
        Set(s, i, Tailer(to, Idle, |s.ranges| + 1)).(frames := Appended(s.id, s.frames, OUTPUT, t.pc.chunk),
                                                    ranges := s.ranges + [Range(t.offset, to, t.seen)])
    case EndTailer(i) => Set(s, i, t.(pc := Ended))
  }

  function Step(s: State, a: Action): State {
    match a
    case RemoteWrites(data) => s.(log := s.log + data)
    case BeginAttach => s.(tailers := s.tailers + [Tailer(OutputResumeOffset(s.frames), Attaching, |s.ranges|)])
    case OtherFrame(kind, data) =>
      if kind == OUTPUT then s else s.(frames := Appended(s.id, s.frames, kind, data))
    case Crash => s.(tailers := [])
    case _ => if a.i < |s.tailers| then TailerStep(s, a) else s
  }

  function Run(s: State, actions: seq<Action>): State
    decreases |actions|
  {
    if actions == [] then s else Run(Step(s, actions[0]), actions[1..])
  }

  /** Reattachments one at a time: none begins while a tailer is attaching or running. */
  ghost predicate Serial(s: State, actions: seq<Action>)
    decreases |actions|
  {
    actions == [] || ((actions[0].BeginAttach? ==> NoneLive(s)) && Serial(Step(s, actions[0]), actions[1..]))
  }

  // ---- Provenance

  /** The end of the first `k` ranges, when they tile the log. */
  function EndAt(ranges: seq<Range>, k: nat): nat
    requires k <= |ranges|
  {
    if k == 0 then 0 else ranges[k - 1].to
  }

  /** The ranges lie end to end, from the start of the log. */
  predicate Tiles(ranges: seq<Range>) {
    ranges == [] ||
    (var front, last := ranges[..|ranges| - 1], ranges[|ranges| - 1];
     Tiles(front) && last.from == EndAt(front, |front|))
  }

  /** No tailer committed after another one had committed since the former began to attach or last committed. */
  predicate NoneBetween(ranges: seq<Range>) {
    forall k | 0 <= k < |ranges| :: ranges[k].seen == k
  }

  predicate Has(r: Range, p: nat) {
    r.from <= p < r.to
  }

  /** Some byte of the log was persisted twice. */
  ghost predicate Twice(ranges: seq<Range>) {
    exists j, k, p :: 0 <= j < k < |ranges| && Has(ranges[j], p) && Has(ranges[k], p)
  }

  /** The stretches of the log that the ranges name, joined. */
  function Joined(log: string, ranges: seq<Range>): string
    requires Within(ranges, |log|)
  {
    if ranges == [] then ""
    else
      var last := ranges[|ranges| - 1];
      Joined(log, ranges[..|ranges| - 1]) + log[last.from..last.to]
  }

  predicate Within(ranges: seq<Range>, length: nat) {
    forall k | 0 <= k < |ranges| :: ranges[k].from < ranges[k].to <= length
  }

  /** As long as the ranges tile, the next one starts no later than where they end. */
  predicate NeverAhead(ranges: seq<Range>) {
    ranges == [] ||
    (var front, last := ranges[..|ranges| - 1], ranges[|ranges| - 1];
     NeverAhead(front) && (Tiles(front) ==> last.from <= EndAt(front, |front|)))
  }

  lemma RangesSnoc(ranges: seq<Range>, r: Range)
    ensures Tiles(ranges + [r]) <==> Tiles(ranges) && r.from == EndAt(ranges, |ranges|)
    ensures NeverAhead(ranges + [r]) <==> NeverAhead(ranges) && (Tiles(ranges) ==> r.from <= EndAt(ranges, |ranges|))
    ensures NoneBetween(ranges + [r]) <==> NoneBetween(ranges) && r.seen == |ranges|
  {
    assert (ranges + [r])[..|ranges|] == ranges;
    assert forall k | 0 <= k < |ranges| :: (ranges + [r])[k] == ranges[k];
    assert (ranges + [r])[|ranges|] == r;
  }

  lemma JoinedSnoc(log: string, ranges: seq<Range>, r: Range)
    requires Within(ranges, |log|) && r.from < r.to <= |log|
    ensures Within(ranges + [r], |log|) && Joined(log, ranges + [r]) == Joined(log, ranges) + log[r.from..r.to]
  {
    assert (ranges + [r])[..|ranges|] == ranges;
  }

  lemma {:induction false} JoinedGrows(log: string, data: string, ranges: seq<Range>)
    requires Within(ranges, |log|)
    ensures Within(ranges, |log + data|) && Joined(log + data, ranges) == Joined(log, ranges)
  {
    if ranges != [] {
      var last := ranges[|ranges| - 1];
      JoinedGrows(log, data, ranges[..|ranges| - 1]);
      assert (log + data)[last.from..last.to] == log[last.from..last.to];
    }
  }

  /** Ranges that tile join to the log up to where they end. */
  lemma {:induction false} TilesJoin(log: string, ranges: seq<Range>)
    requires Within(ranges, |log|) && Tiles(ranges)
    ensures EndAt(ranges, |ranges|) <= |log| && Joined(log, ranges) == log[..EndAt(ranges, |ranges|)]
  {
    if ranges != [] {
      var last := ranges[|ranges| - 1];
      TilesJoin(log, ranges[..|ranges| - 1]);
      assert log[..last.from] + log[last.from..last.to] == log[..last.to];
    }
  }

  lemma {:induction false} TilesGrow(ranges: seq<Range>, k: nat, length: nat)
    requires Tiles(ranges) && Within(ranges, length) && k < |ranges|
    ensures EndAt(ranges, k) < EndAt(ranges, |ranges|)
  {
    var front := ranges[..|ranges| - 1];
    if k < |front| {
      TilesGrow(front, k, length);
      assert EndAt(front, k) == EndAt(ranges, k);
    }
  }

  /** Every position before the end of ranges that tile lies in one of them. */
  lemma {:induction false} Covered(ranges: seq<Range>, p: nat, length: nat) returns (j: nat)
    requires Tiles(ranges) && Within(ranges, length) && p < EndAt(ranges, |ranges|)
    ensures j < |ranges| && Has(ranges[j], p)
  {
    var front := ranges[..|ranges| - 1];
    if p < EndAt(front, |front|) {
      j := Covered(front, p, length);
    } else {
      j := |ranges| - 1;
    }
  }

  /** Ranges none of which runs ahead tile if and only if no byte lies in two of them. */
  lemma {:induction false} TilesIffNeverTwice(ranges: seq<Range>, length: nat)
    requires NeverAhead(ranges) && Within(ranges, length)
    ensures Tiles(ranges) <==> !Twice(ranges)
  {
    if ranges == [] {
      assert !Twice(ranges);
    } else {
      var front, last := ranges[..|ranges| - 1], ranges[|ranges| - 1];
      assert ranges == front + [last];
      TilesIffNeverTwice(front, length);
      OneMoreTilesIff(front, last, length);
    }
  }

  lemma OneMoreTilesIff(front: seq<Range>, last: Range, length: nat)
    requires NeverAhead(front + [last]) && Within(front + [last], length)
    requires Tiles(front) <==> !Twice(front)
    ensures Tiles(front + [last]) <==> !Twice(front + [last])
  {
    RangesSnoc(front, last);
    if !Tiles(front) {
      TwiceGrows(front, last);
    } else if last.from < EndAt(front, |front|) {
      WithinFront(front, last, length);
      FallsBack(front, last, length);
    } else {
      NoneTwice(front + [last], length);
    }
  }

  lemma WithinFront(front: seq<Range>, last: Range, length: nat)
    requires Within(front + [last], length)
    ensures Within(front, length) && last.from < last.to <= length
  {
    assert (front + [last])[|front|] == last;
    assert forall k | 0 <= k < |front| :: (front + [last])[k] == front[k];
  }

  lemma FallsBack(front: seq<Range>, last: Range, length: nat)
    requires Tiles(front) && Within(front, length) && last.from < last.to && last.from < EndAt(front, |front|)
    ensures Twice(front + [last])
  {
    var j := Covered(front, last.from, length);
    assert Has((front + [last])[j], last.from) && Has((front + [last])[|front|], last.from);
  }

  lemma TwiceGrows(front: seq<Range>, last: Range)
    requires Twice(front)
    ensures Twice(front + [last])
  {
    var j, k, p :| 0 <= j < k < |front| && Has(front[j], p) && Has(front[k], p);
    assert Has((front + [last])[j], p) && Has((front + [last])[k], p);
  }

  lemma NoneTwice(ranges: seq<Range>, length: nat)
    requires Tiles(ranges) && Within(ranges, length)
    ensures !Twice(ranges)
  {
    forall j, k, p | 0 <= j < k < |ranges| && Has(ranges[j], p)
      ensures !Has(ranges[k], p)
    {
      Ordered(ranges, j, k, length);
    }
  }

  lemma {:induction false} Ordered(ranges: seq<Range>, j: nat, k: nat, length: nat)
    requires Tiles(ranges) && Within(ranges, length) && j < k < |ranges|
    ensures ranges[j].to <= ranges[k].from
  {
    var front := ranges[..|ranges| - 1];
    if k < |front| {
      Ordered(front, j, k, length);
    } else if j + 1 < |front| {
      TilesGrow(front, j + 1, length);
    }
  }

  // ---- In every run

  /** A tailer knows a position no later than the end of the persisted output, and holds log text; while the
      ranges tile, the position is where they ended when it last looked. */
  ghost predicate TailerInv(t: Tailer, log: string, length: nat, ranges: seq<Range>) {
    && t.offset <= length && t.seen <= |ranges|
    && (t.pc.Emitting? ==> t.pc.chunk != "" && t.offset + |t.pc.chunk| <= |log| &&
                           t.pc.chunk == log[t.offset..t.offset + |t.pc.chunk|])
    && (Tiles(ranges) ==> t.offset == EndAt(ranges, t.seen))
  }

  ghost predicate TailersInv(s: State, length: nat) {
    forall i | 0 <= i < |s.tailers| :: TailerInv(s.tailers[i], s.log, length, s.ranges)
  }

  /** `text` is what the ranges name, and they tile exactly if no commit came in between. */
  ghost predicate RangesInv(log: string, ranges: seq<Range>, text: string) {
    && Within(ranges, |log|) && text == Joined(log, ranges)
    && NeverAhead(ranges) && (Tiles(ranges) <==> NoneBetween(ranges))
  }

  ghost predicate OutputInv(s: State, text: string) {
    RangesInv(s.log, s.ranges, text) && TailersInv(s, |text|)
  }

  ghost predicate Inv(s: State) {
    WellNumbered(s.frames) && OutputInv(s, OutputText(s.frames))
  }

  /** The output is as long as its ranges reach, if they tile. */
  lemma TiledLength(log: string, ranges: seq<Range>, text: string)
    requires RangesInv(log, ranges, text) && Tiles(ranges)
    ensures |text| == EndAt(ranges, |ranges|) && text == log[..|text|]
  {
    TilesJoin(log, ranges);
  }

  lemma CommitKeepsRanges(s: State, t: Tailer, text: string)
    requires RangesInv(s.log, s.ranges, text) && TailerInv(t, s.log, |text|, s.ranges) && t.pc.Emitting?
    ensures RangesInv(s.log, s.ranges + [Range(t.offset, t.offset + |t.pc.chunk|, t.seen)], text + t.pc.chunk)
  {
    var r := Range(t.offset, t.offset + |t.pc.chunk|, t.seen);
    RangesSnoc(s.ranges, r);
    JoinedSnoc(s.log, s.ranges, r);
    if Tiles(s.ranges) {
      TiledLength(s.log, s.ranges, text);
      if t.seen < |s.ranges| { TilesGrow(s.ranges, t.seen, |s.log|); }
    }
  }

  lemma CommitKeeps(s: State, i: nat, text: string)
    requires i < |s.tailers| && s.tailers[i].pc.Emitting? && OutputInv(s, text)
    ensures OutputInv(TailerStep(s, Commit(i)), text + s.tailers[i].pc.chunk)
  {
    var t := s.tailers[i];
    CommitKeepsRanges(s, t, text);
    CommitKeepsTailers(s, i, text);
  }

  lemma CommitKeepsTailers(s: State, i: nat, text: string)
    requires i < |s.tailers| && s.tailers[i].pc.Emitting? && TailersInv(s, |text|)
    ensures TailersInv(TailerStep(s, Commit(i)), |text + s.tailers[i].pc.chunk|)
  {
    var t := s.tailers[i];
    var r := Range(t.offset, t.offset + |t.pc.chunk|, t.seen);
    var s' := TailerStep(s, Commit(i));
    RangesSnoc(s.ranges, r);
    assert |text + t.pc.chunk| == |text| + |t.pc.chunk|;
    forall j | 0 <= j < |s'.tailers| ensures TailerInv(s'.tailers[j], s'.log, |text + t.pc.chunk|, s'.ranges) {
      if j != i {
        assert s'.tailers[j] == s.tailers[j] && TailerInv(s.tailers[j], s.log, |text|, s.ranges);
        assert EndAt(s'.ranges, s.tailers[j].seen) == EndAt(s.ranges, s.tailers[j].seen);
      }
    }
  }

  lemma QuietKeeps(s: State, a: Action, text: string)
    requires OutputInv(s, text) && OutputResumeOffset(s.frames) == |text| && !a.Commit?
    ensures OutputInv(Step(s, a), text)
  {
    if a.RemoteWrites? { JoinedGrows(s.log, a.data, s.ranges); }
    if Tiles(s.ranges) { TiledLength(s.log, s.ranges, text); }
    QuietKeepsTailers(s, a, |text|);
  }

  lemma QuietKeepsTailers(s: State, a: Action, length: nat)
    requires TailersInv(s, length) && OutputResumeOffset(s.frames) == length && !a.Commit?
    requires Tiles(s.ranges) ==> length == EndAt(s.ranges, |s.ranges|)
    ensures TailersInv(Step(s, a), length)
  {
    var s' := Step(s, a);
    forall i | 0 <= i < |s'.tailers| ensures TailerInv(s'.tailers[i], s'.log, length, s'.ranges) {
      if i < |s.tailers| { assert TailerInv(s.tailers[i], s.log, length, s.ranges); }
    }
  }

  lemma StepKeeps(s: State, a: Action)
    requires Inv(s)
    ensures Inv(Step(s, a))
  {
    ResumeOffsetIsLength(s.frames);
    if a.Commit? {
      if a.i < |s.tailers| && s.tailers[a.i].pc.Emitting? {
        CommitKeeps(s, a.i, OutputText(s.frames));
        AppendedIs(s.id, s.frames, OUTPUT, s.tailers[a.i].pc.chunk);
      }
    } else {
      QuietKeeps(s, a, OutputText(s.frames));
      if a.OtherFrame? && a.kind != OUTPUT { AppendedIs(s.id, s.frames, a.kind, a.data); }
    }
  }

  lemma {:induction false} RunKeeps(s: State, actions: seq<Action>)
    requires Inv(s)
    ensures Inv(Run(s, actions))
    decreases |actions|
  {
    if actions != [] {
      StepKeeps(s, actions[0]);
      RunKeeps(Step(s, actions[0]), actions[1..]);
    }
  }

  /** Whatever the interleaving, frame numbers stay dense and offsets prefix sums, the resume offset is the
      length of the output, and the output is the stretches of the log its frames come from. */
  lemma FramesOverAnyRun(id: string, actions: seq<Action>)
    ensures var s := Run(Created(id), actions);
            && WellNumbered(s.frames)
            && OutputResumeOffset(s.frames) == |OutputText(s.frames)|
            && Within(s.ranges, |s.log|) && OutputText(s.frames) == Joined(s.log, s.ranges)
  {
    RunKeeps(Created(id), actions);
    ResumeOffsetIsLength(Run(Created(id), actions).frames);
  }

  /** The output tiles the log from its start if and only if no tailer commits after another one has committed
      since the former began to attach or last committed; otherwise, and only then, a byte is persisted twice. */
  lemma OutputTilesIff(id: string, actions: seq<Action>)
    ensures var s := Run(Created(id), actions);
            && (Tiles(s.ranges) <==> NoneBetween(s.ranges))
            && (Twice(s.ranges) <==> !NoneBetween(s.ranges))
            && (NoneBetween(s.ranges) ==> OutputText(s.frames) <= s.log)
  {
    var s := Run(Created(id), actions);
    RunKeeps(Created(id), actions);
    TilesIffNeverTwice(s.ranges, |s.log|);
    if Tiles(s.ranges) { TiledLength(s.log, s.ranges, OutputText(s.frames)); }
  }

  // ---- Serial reattachment

  /** At most one live tailer, and it stands exactly at the end of the persisted output. */
  ghost predicate OneTailer(s: State, length: nat) {
    && Tiles(s.ranges) && EndAt(s.ranges, |s.ranges|) == length
    && (forall i, j | 0 <= i < j < |s.tailers| :: !Live(s.tailers[i]) || !Live(s.tailers[j]))
    && (forall i | 0 <= i < |s.tailers| && Live(s.tailers[i]) :: s.tailers[i].offset == length)
  }

  lemma SerialCommitKeeps(s: State, i: nat, length: nat)
    requires OneTailer(s, length)
    requires i < |s.tailers| && s.tailers[i].pc.Emitting?
    ensures OneTailer(TailerStep(s, Commit(i)), length + |s.tailers[i].pc.chunk|)
  {
    var s' := TailerStep(s, Commit(i));
    RangesSnoc(s.ranges, s'.ranges[|s.ranges|]);
    forall j | 0 <= j < |s'.tailers| && Live(s'.tailers[j])
      ensures s'.tailers[j].offset == length + |s.tailers[i].pc.chunk|
    {
      assert j == i;
    }
  }

  lemma SerialQuietKeeps(s: State, a: Action, length: nat)
    requires OneTailer(s, length) && length == OutputResumeOffset(s.frames) && !a.Commit?
    requires a.BeginAttach? ==> NoneLive(s)
    ensures OneTailer(Step(s, a), length)
  {
  }

  lemma SerialStepKeeps(s: State, a: Action)
    requires Inv(s) && OneTailer(s, |OutputText(s.frames)|) && (a.BeginAttach? ==> NoneLive(s))
    ensures OneTailer(Step(s, a), |OutputText(Step(s, a).frames)|)
  {
    ResumeOffsetIsLength(s.frames);
    if a.Commit? {
      if a.i < |s.tailers| && s.tailers[a.i].pc.Emitting? {
        SerialCommitKeeps(s, a.i, |OutputText(s.frames)|);
        AppendedIs(s.id, s.frames, OUTPUT, s.tailers[a.i].pc.chunk);
      }
    } else {
      SerialQuietKeeps(s, a, |OutputText(s.frames)|);
      if a.OtherFrame? && a.kind != OUTPUT { AppendedIs(s.id, s.frames, a.kind, a.data); }
    }
  }

  lemma {:induction false} SerialRunKeeps(s: State, actions: seq<Action>)
    requires Inv(s) && OneTailer(s, |OutputText(s.frames)|) && Serial(s, actions)
    ensures OneTailer(Run(s, actions), |OutputText(Run(s, actions).frames)|)
    decreases |actions|
  {
    if actions != [] {
      StepKeeps(s, actions[0]);
      SerialStepKeeps(s, actions[0]);
      SerialRunKeeps(Step(s, actions[0]), actions[1..]);
    }
  }

  /** Across any number of serial reattachments and crashes, with input and resize frames anywhere in
      between, no byte of terminal output is persisted twice or skipped. */
  lemma SerialReattachmentKeepsOutput(id: string, actions: seq<Action>)
    requires Serial(Created(id), actions)
    ensures var s := Run(Created(id), actions);
            OutputText(s.frames) <= s.log && OutputResumeOffset(s.frames) == |OutputText(s.frames)| && !Twice(s.ranges)
  {
    SerialRunKeeps(Created(id), actions);
    FramesOverAnyRun(id, actions);
    OutputTilesIff(id, actions);
    RunKeeps(Created(id), actions);
  }

  // ---- Without a tailer

  /** After a crash, or the end of the only tailer, no output is persisted until a new attachment begins. */
  lemma {:induction false} NoTailerNoOutput(s: State, actions: seq<Action>)
    requires NoneLive(s) && forall a :: a in actions ==> !a.BeginAttach?
    ensures NoneLive(Run(s, actions)) && OutputText(Run(s, actions).frames) == OutputText(s.frames)
    decreases |actions|
  {
    if actions != [] {
      var a := actions[0];
      assert a in actions;
      if a.OtherFrame? && a.kind != OUTPUT { OtherFrameIsAppended(s, a.kind, a.data); }
      NoTailerNoOutput(Step(s, a), actions[1..]);
    }
  }

  lemma TailersEnd(s: State, i: nat)
    ensures NoneLive(Step(s, Crash)) && Step(s, Crash).frames == s.frames
    ensures i < |s.tailers| ==> !Live(Step(s, EndTailer(i)).tailers[i]) && Step(s, EndTailer(i)).frames == s.frames
  {
  }

  /** A frame of input, a resize or a marker is persisted too, and leaves the output as it is. */
  lemma OtherFrameIsAppended(s: State, kind: FrameKind, data: string)
    requires kind != OUTPUT
    ensures var after := Step(s, OtherFrame(kind, data));
            && |after.frames| == |s.frames| + 1 && s.frames <= after.frames
            && after.frames[|s.frames|].kind == kind && after.frames[|s.frames|].data == data
            && OutputText(after.frames) == OutputText(s.frames) && after.tailers == s.tailers
  {
    OutputTextSnoc(s.frames, Step(s, OtherFrame(kind, data)).frames[|s.frames|]);
  }

  // ---- Concurrent reattachment

  /** Two tailers that hold text from one position: when both have committed, the output ends with both texts,
      one a repetition of the other's beginning, and a byte of the log is there twice. */
  lemma TwoTailersRepeat(s: State, i: nat, j: nat)
    requires Inv(s) && i < |s.tailers| && j < |s.tailers| && i != j
    requires s.tailers[i].pc.Emitting? && s.tailers[j].pc.Emitting?
    requires s.tailers[i].offset == s.tailers[j].offset
    ensures var one, two, end := s.tailers[i].pc.chunk, s.tailers[j].pc.chunk, Step(Step(s, Commit(i)), Commit(j));
            && OutputText(end.frames) == OutputText(s.frames) + one + two
            && (one <= two || two <= one) && one != "" && two != ""
            && Twice(end.ranges)
  {
    var t, u := s.tailers[i], s.tailers[j];
    assert TailerInv(t, s.log, |OutputText(s.frames)|, s.ranges);
    assert TailerInv(u, s.log, |OutputText(s.frames)|, s.ranges);
    BothCommit(s, i, j);
    SameStart(s.log, t.offset, t.pc.chunk, u.pc.chunk);
    TwiceAtEnd(s.ranges, Range(t.offset, t.offset + |t.pc.chunk|, t.seen),
               Range(u.offset, u.offset + |u.pc.chunk|, u.seen), t.offset);
  }

  lemma BothCommit(s: State, i: nat, j: nat)
    requires WellNumbered(s.frames) && i < |s.tailers| && j < |s.tailers| && i != j
    requires s.tailers[i].pc.Emitting? && s.tailers[j].pc.Emitting?
    ensures var t, u, end := s.tailers[i], s.tailers[j], Step(Step(s, Commit(i)), Commit(j));
            && OutputText(end.frames) == OutputText(s.frames) + t.pc.chunk + u.pc.chunk
            && end.ranges == s.ranges + [Range(t.offset, t.offset + |t.pc.chunk|, t.seen)] +
                             [Range(u.offset, u.offset + |u.pc.chunk|, u.seen)]
  {
    CommitAppends(s, i);
    assert Step(s, Commit(i)).tailers[j] == s.tailers[j];
    CommitAppends(Step(s, Commit(i)), j);
  }

  lemma CommitAppends(s: State, i: nat)
    requires WellNumbered(s.frames) && i < |s.tailers| && s.tailers[i].pc.Emitting?
    ensures var t, after := s.tailers[i], Step(s, Commit(i));
            && OutputText(after.frames) == OutputText(s.frames) + t.pc.chunk && WellNumbered(after.frames)
            && after.ranges == s.ranges + [Range(t.offset, t.offset + |t.pc.chunk|, t.seen)]
            && after.tailers == s.tailers[i := Tailer(t.offset + |t.pc.chunk|, Idle, |s.ranges| + 1)]
  {
    AppendedIs(s.id, s.frames, OUTPUT, s.tailers[i].pc.chunk);
  }

  lemma TwiceAtEnd(ranges: seq<Range>, one: Range, two: Range, p: nat)
    requires Has(one, p) && Has(two, p)
    ensures Twice(ranges + [one] + [two])
  {
    var all := ranges + [one] + [two];
    assert Has(all[|ranges|], p) && Has(all[|ranges| + 1], p);
  }

  lemma SameStart(log: string, from: nat, one: string, two: string)
    requires from + |one| <= |log| && one == log[from..from + |one|]
    requires from + |two| <= |log| && two == log[from..from + |two|]
    ensures one <= two || two <= one
  {
    if |one| <= |two| { assert two[..|one|] == one; } else { assert one[..|two|] == two; }
  }

  ghost predicate Reachable(s: State) {
    exists id, actions :: s == Run(Created(id), actions)
  }

  lemma {:induction false} RunConcat(s: State, first: seq<Action>, second: seq<Action>)
    ensures Run(s, first + second) == Run(Run(s, first), second)
    decreases |first|
  {
    if first == [] {
      assert first + second == second;
    } else {
      RunConcat(Step(s, first[0]), first[1..], second);
      assert (first + second)[1..] == first[1..] + second;
    }
  }

  lemma RunSnoc(s: State, actions: seq<Action>, a: Action)
    ensures Run(s, actions + [a]) == Step(Run(s, actions), a)
  {
    RunConcat(s, actions, [a]);
    assert [a][1..] == [];
  }

  lemma Continue(s: State, a: Action) returns (s': State)
    requires Reachable(s)
    ensures Reachable(s') && s' == Step(s, a)
  {
    var id, actions :| s == Run(Created(id), actions);
    RunSnoc(Created(id), actions, a);
    s' := Step(s, a);
    assert s' == Run(Created(id), actions + [a]);
  }

  lemma AttachTwice() returns (s: State)
    ensures Reachable(s)
    ensures s == State("s", "x", [], [Tailer(0, Attaching, 0), Tailer(0, Attaching, 0)], [])
  {
    s := Created("s");
    assert s == Run(Created("s"), []);
    s := Continue(s, RemoteWrites("x"));
    assert "" + "x" == "x";
    s := Continue(s, BeginAttach);
    s := Continue(s, BeginAttach);
  }

  lemma ReadTwice() returns (s: State)
    ensures Reachable(s)
    ensures s == State("s", "x", [], [Tailer(0, Emitting("x"), 0), Tailer(0, Emitting("x"), 0)], [])
  {
    s := AttachTwice();
    s := Continue(s, FinishAttach(0));
    s := Continue(s, FinishAttach(1));
    s := Continue(s, ReadLog(0, true));
    s := Continue(s, ReadLog(1, true));
  }

  /** Two requests that both find no handle registered attach twice: one byte of log, two of output. */
  lemma ConcurrentAttachDuplicates() returns (s: State)
    ensures Reachable(s) && s.log == "x" && OutputText(s.frames) == "xx"
  {
    s := ReadTwice();
    var first := s.frames;
    s := CommitAdds(s, 0);
    s := CommitAdds(s, 1);
    assert OutputText(first) == "" && "" + "x" == "x" && "x" + "x" == "xx";
  }

  lemma CommitAdds(s: State, i: nat) returns (s': State)
    requires Reachable(s) && i < |s.tailers| && s.tailers[i].pc.Emitting?
    ensures Reachable(s') && s'.log == s.log
    ensures OutputText(s'.frames) == OutputText(s.frames) + s.tailers[i].pc.chunk
    ensures |s'.tailers| == |s.tailers| && forall j | 0 <= j < |s.tailers| && j != i :: s'.tailers[j] == s.tailers[j]
  {
    s' := Continue(s, Commit(i));
    OutputTextSnoc(s.frames, Frame(s.id, |s.frames|, DataLength(s.frames), OUTPUT, s.tailers[i].pc.chunk));
  }
}
