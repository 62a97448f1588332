/** The frame subscription of the broker: `_stream_session_frames` and `_send_new_frames`, with frames being
    appended at every await point and a connection that may break at any of them. */
module FrameStream {
  import opened Model
  import opened StreamMessages
  import opened TerminalFrames

  const PAGE: nat := 500

  /** What happens while the stream is suspended once: frames are appended, the connection may break. */
  datatype Interference = Interference(appends: seq<(FrameKind, string)>, breaks: bool)

  /** How one wait on the event queue ends. */
  datatype Wake = Event(forThisSession: bool) | HeartbeatDue | DeadlinePassed

  /** The frames numbered above `after` and not above `last`. */
  function Between(frames: seq<Frame>, after: int, last: int): seq<Frame> {
    var lo, hi := Max(after + 1, 0), last + 1;
    if lo <= hi <= |frames| then frames[lo..hi] else []
  }

  /** `Between` is what it says on every dense table: each such frame once, in ascending order. */
  lemma BetweenIsExact(frames: seq<Frame>, after: int, last: int)
    requires Dense(frames) && (last < |frames| || last <= after)
    ensures var b := Between(frames, after, last);
            && (forall f :: f in b <==> f in frames && after < f.number <= last)
            && (forall i, j :: 0 <= i < j < |b| ==> b[i].number < b[j].number)
  {
    var b := Between(frames, after, last);
    forall f ensures f in b <==> f in frames && after < f.number <= last {
      if f in frames && after < f.number <= last {
        assert frames[f.number] == f;
        assert b[f.number - Max(after + 1, 0)] == f;
      }
    }
  }

  lemma BetweenGrows(frames: seq<Frame>, more: seq<Frame>, after: int, last: int)
    requires frames <= more && (last < |frames| || last <= after)
    ensures Between(more, after, last) == Between(frames, after, last)
  {
  }

  /** The number of the last of the frames, or `after` before the first. */
  function LastNumber(items: seq<Frame>, after: int): int {
    if items == [] then after else items[|items| - 1].number
  }

  /** Every heartbeat reports the number of the last frame sent before it. */
  ghost predicate HeartbeatsTell(out: seq<Message<Frame>>, after: int) {
    out == [] ||
    var front, last := out[..|out| - 1], out[|out| - 1];
    HeartbeatsTell(front, after) && (last.Heartbeat? ==> last.lastSeq == Some(LastNumber(Items(front), after)))
  }

  lemma HeartbeatsTellSnoc(out: seq<Message<Frame>>, m: Message<Frame>, after: int)
    requires HeartbeatsTell(out, after)
    requires m.Heartbeat? ==> m.lastSeq == Some(LastNumber(Items(out), after))
    ensures HeartbeatsTell(out + [m], after)
  {
    assert (out + [m])[..|out|] == out;
  }

  lemma RestOfPage(rest: seq<Frame>, before: seq<Frame>, now: seq<Frame>, lo: nat)
    requires rest != [] && lo + |rest| <= |before| && rest == before[lo..lo + |rest|] && before <= now
    ensures rest[1..] == now[lo + 1..lo + |rest|]
  {
  }

  class Stream {
    const id: string
    const after: int
    const maxItems: Option<nat>
    /** The frame table of the session, and what has been sent. */
    var frames: seq<Frame>
    var out: seq<Message<Frame>>
    var pending: seq<Interference>
    /** The locals `sent` and `last_seq`. */
    var sent: nat
    var lastSeq: int

    constructor (id: string, frames: seq<Frame>, afterSeq: Option<int>, maxItems: Option<nat>,
        pending: seq<Interference>)
      requires Dense(frames) && (maxItems.Some? ==> maxItems.value > 0)
      ensures Inv() && out == [] && this.frames == frames && this.pending == pending
      ensures this.after == (if afterSeq.Some? then afterSeq.value else -1) && this.maxItems == maxItems
    {
      this.id, this.frames, this.maxItems, this.pending := id, frames, maxItems, pending;
      after := if afterSeq.Some? then afterSeq.value else -1;
      lastSeq := if afterSeq.Some? then afterSeq.value else -1;
      out, sent := [], 0;
    }

    /** At every moment: sent are exactly the frames above `after` up to `lastSeq`, and not too many. */
    ghost predicate Inv()
      reads this
    {
      && Dense(frames)
      && after <= lastSeq && (lastSeq == after || lastSeq < |frames|)
      && Items(out) == Between(frames, after, lastSeq)
      && sent == |Items(out)|
      && (maxItems.Some? ==> sent <= maxItems.value && maxItems.value > 0)
      && WellFormed(out) && HeartbeatsTell(out, after) && lastSeq == LastNumber(Items(out), after)
    }

    /** The connection will not break. */
    predicate Unbroken()
      reads this
    {
      forall i | 0 <= i < |pending| :: !pending[i].breaks
    }

    predicate Finished()
      reads this
    {
      out != [] && out[|out| - 1].End?
    }

    /** Started, and neither ended nor at its limit. */
    predicate Running()
      reads this
    {
      out != [] && !Finished() && !LimitReached()
    }

    predicate LimitReached()
      reads this
    {
      maxItems.Some? && sent >= maxItems.value
    }

    /** One suspension. */
    method Suspend() returns (broken: bool)
      requires Inv()
      modifies this`frames, this`pending
      ensures Inv() && old(frames) <= frames
      ensures old(pending) == [] ==> frames == old(frames) && !broken && pending == []
      ensures old(pending) != [] ==> |pending| < |old(pending)|
      ensures old(Unbroken()) ==> !broken && Unbroken()
    {
      broken := false;
      if pending != [] {
        var now := pending[0];
        pending := pending[1..];
        for k := 0 to |now.appends|
          invariant Inv() && old(frames) <= frames && pending == old(pending)[1..]
        {
          var before := frames;
          frames := Appended(id, frames, now.appends[k].0, now.appends[k].1);
          BetweenGrows(before, frames, after, lastSeq);
        }
        broken := now.breaks;
      }
    }

    /** `_send_stream` of anything but a frame. */
    method Send(m: Message<Frame>) returns (broken: bool)
      requires Inv() && !m.Item? && !Finished() && (out == [] <==> m == Start) &&
                 (m.Heartbeat? || m.End? ==> m.items == sent) && (m.Heartbeat? ==> m.lastSeq == Some(lastSeq))
      modifies this`frames, this`pending, this`out
      ensures Inv() && old(frames) <= frames && |pending| <= |old(pending)|
      ensures !broken ==> out == old(out) + [m]
      ensures broken ==> out == old(out)
      ensures old(Unbroken()) ==> !broken && Unbroken()
    {
      broken := Suspend();
      if !broken {
        ItemsSnoc(out, m);
        WellFormedSnoc(out, m);
        HeartbeatsTellSnoc(out, m, after);
        out := out + [m];
      }
    }

    /** `_send_stream` of the next frame, then `sent += 1` and `last_seq = max(last_seq, frame.seq)`. */
    method SendFrame(frame: Frame) returns (broken: bool)
      requires Inv() && Running()
      requires Max(lastSeq, -1) + 1 < |frames| && frame == frames[Max(lastSeq, -1) + 1]
      modifies this`frames, this`pending, this`out, this`sent, this`lastSeq
      ensures Inv() && out != [] && !Finished() && old(frames) <= frames && |pending| <= |old(pending)|
      ensures |pending| == |old(pending)| ==> frames == old(frames)
      ensures broken ==> lastSeq == old(lastSeq) && sent == old(sent) && out == old(out)
      ensures !broken ==> lastSeq == frame.number && sent == old(sent) + 1 && out == old(out) + [Item(frame)]
      ensures old(Unbroken()) ==> !broken && Unbroken()
    {
      broken := Suspend();
      if !broken {
        ItemsSnoc(out, Item(frame));
        WellFormedSnoc(out, Item(frame));
        HeartbeatsTellSnoc(out, Item(frame), after);
        assert frames[frame.number] == frame;
        out := out + [Item(frame)];
        sent := sent + 1;
        lastSeq := Max(lastSeq, frame.number);
      }
    }

    /** `_send_new_frames`: page through the table until a page comes back empty. */
    method SendNewFrames() returns (broken: bool)
      requires Inv() && Running()
      modifies this`frames, this`pending, this`out, this`sent, this`lastSeq
      ensures Inv() && out != [] && !Finished() && old(frames) <= frames && |pending| <= |old(pending)|
      ensures !broken && !LimitReached() ==> |frames| <= Max(lastSeq, -1) + 1
      ensures lastSeq >= old(lastSeq)
      ensures old(Unbroken()) ==> !broken && Unbroken()
    {
      broken := false;
      var more := true;
      while more
        invariant lastSeq >= old(lastSeq)
        invariant Inv() && Running() && old(frames) <= frames && |pending| <= |old(pending)|
        invariant !broken && (old(Unbroken()) ==> Unbroken())
        invariant !more ==> |frames| <= Max(lastSeq, -1) + 1
        decreases more, |pending|, |frames| - lastSeq
      {
        broken, more := SendNextPage();
        if broken || LimitReached() { return; }
      }
    }

    /** Ask for the next page and send it; `more` is false when it was empty. */
    method SendNextPage() returns (broken: bool, more: bool)
      requires Inv() && Running()
      modifies this`frames, this`pending, this`out, this`sent, this`lastSeq
      ensures Inv() && out != [] && !Finished() && old(frames) <= frames && lastSeq >= old(lastSeq)
      ensures !more ==> broken || |frames| <= Max(lastSeq, -1) + 1
      ensures more && !broken && !LimitReached() ==>
                |pending| < |old(pending)| || (|pending| == |old(pending)| && frames == old(frames) &&
                    lastSeq > old(lastSeq))
      ensures |pending| <= |old(pending)|
      ensures old(Unbroken()) ==> !broken && Unbroken()
    {
      more := false;
      broken := Suspend();
      if broken { return; }
      var page := ListFrames(frames, Some(lastSeq), PAGE);
      PageOf(frames, lastSeq);
      if page == [] { return; }
      broken := SendPage(page);
      more := true;
    }

    lemma PageOf(frames: seq<Frame>, last: int)
      requires Dense(frames)
      ensures var page, lo := ListFrames(frames, Some(last), PAGE), Max(last, -1) + 1;
              && (page == [] <==> |frames| <= lo)
              && (page != [] ==> lo + |page| <= |frames| && page == frames[lo..lo + |page|])
    {
      AboveIsSuffix(frames, Some(last));
    }

    /** The frames still to be sent of the current page are the next ones of the table. */
    predicate AtPage(rest: seq<Frame>)
      reads this
    {
      var lo := Max(lastSeq, -1) + 1;
      lo + |rest| <= |frames| && rest == frames[lo..lo + |rest|]
    }

    method SendFirst(rest: seq<Frame>) returns (broken: bool)
      requires Inv() && Running() && rest != [] && AtPage(rest)
      modifies this`frames, this`pending, this`out, this`sent, this`lastSeq
      ensures Inv() && out != [] && !Finished() && old(frames) <= frames && |pending| <= |old(pending)|
      ensures |pending| == |old(pending)| ==> frames == old(frames)
      ensures if broken then lastSeq == old(lastSeq) else lastSeq > old(lastSeq) && AtPage(rest[1..])
      ensures old(Unbroken()) ==> !broken && Unbroken()
    {
      ghost var lo, before := Max(lastSeq, -1) + 1, frames;
      assert rest[0] == frames[lo];
      broken := SendFrame(rest[0]);
      RestOfPage(rest, before, frames, lo);
    }

    /** The inner loop of `_send_new_frames`. */
    method SendPage(page: seq<Frame>) returns (broken: bool)
      requires Inv() && Running() && page != [] && AtPage(page)
      modifies this`frames, this`pending, this`out, this`sent, this`lastSeq
      ensures Inv() && out != [] && !Finished() && old(frames) <= frames && |pending| <= |old(pending)|
      ensures |pending| == |old(pending)| ==> frames == old(frames)
      ensures !broken && !LimitReached() ==> lastSeq > old(lastSeq)
      ensures lastSeq >= old(lastSeq)
      ensures old(Unbroken()) ==> !broken && Unbroken()
    {
      var rest := page;
      while rest != []
        invariant Inv() && Running() && AtPage(rest)
        invariant old(frames) <= frames && |pending| <= |old(pending)| && (old(Unbroken()) ==> Unbroken())
        invariant |pending| == |old(pending)| ==> frames == old(frames)
        invariant lastSeq > old(lastSeq) || (lastSeq == old(lastSeq) && rest != [])
        decreases |rest|
      {
        broken := SendFirst(rest);
        if broken || LimitReached() { return; }
        rest := rest[1..];
      }
      broken := false;
    }

    /** One turn of the loop of `_stream_session_frames`: `None` means that it goes on. */
    method OnWake(wake: Wake) returns (outcome: Option<Outcome>)
      requires Inv() && Running()
      modifies this`frames, this`pending, this`out, this`sent, this`lastSeq
      ensures Inv() && old(frames) <= frames && lastSeq >= old(lastSeq) && out != []
      ensures outcome == None ==> Running() && wake != DeadlinePassed
      ensures outcome == None && wake == Event(true) ==> |frames| <= Max(lastSeq, -1) + 1
      ensures outcome.Some? ==>
                outcome.value != StillOpen && (outcome.value == Ended(Timeout) ==> wake == DeadlinePassed)
      ensures outcome.Some? ==> EndsWith(outcome.value)
      ensures old(Unbroken()) ==> outcome != Some(Broken) && Unbroken()
    {
      if wake == DeadlinePassed {
        var broken := Send(End(Timeout, sent));
        return Some(if broken then Broken else Ended(Timeout));
      }
      var broken := Suspend();
      if broken { return Some(Broken); }
      if wake == HeartbeatDue {
        broken := Send(Heartbeat(sent, Some(lastSeq)));
        return if broken then Some(Broken) else None;
      }
      if !wake.forThisSession { return None; }
      broken := SendNewFrames();
      if broken { return Some(Broken); }
      outcome := EndAtLimit();
    }

    /** The check for `max_items` that follows every call of `_send_new_frames`. */
    method EndAtLimit() returns (outcome: Option<Outcome>)
      requires Inv() && out != [] && !Finished()
      modifies this`frames, this`pending, this`out
      ensures Inv() && out != [] && old(frames) <= frames
      ensures outcome == None <==> !LimitReached()
      ensures outcome == None ==> !Finished() && frames == old(frames)
      ensures outcome.Some? ==> outcome.value in {Broken, Ended(MaxItems)} && EndsWith(outcome.value)
      ensures old(Unbroken()) ==> outcome != Some(Broken) && Unbroken()
    {
      if !LimitReached() { return None; }
      var broken := Send(End(MaxItems, sent));
      return Some(if broken then Broken else Ended(MaxItems));
    }

    /** The messages agree with how the stream came to its end. */
    predicate EndsWith(outcome: Outcome)
      reads this
    {
      && (outcome.Ended? <==> Finished())
      && (outcome.Ended? ==> out[|out| - 1] == End(outcome.reason, sent))
      && (outcome == Ended(MaxItems) ==> LimitReached())
      && (outcome == StillOpen ==> !LimitReached())
    }

    /** `_stream_session_frames`.  It is left waiting on its queue when `wakes` is used up.  Unless the
        connection broke or the limit was reached, every frame that was there at the start is sent, and
        after a last wake-up for this session every frame that was there then. */
    method Subscribe(wakes: seq<Wake>) returns (outcome: Outcome)
      requires Inv() && out == []
      modifies this`frames, this`pending, this`out, this`sent, this`lastSeq
      ensures Inv() && old(frames) <= frames && EndsWith(outcome)
      ensures outcome == StillOpen ==> DeadlinePassed !in wakes
      ensures outcome == Ended(Timeout) ==> DeadlinePassed in wakes
      ensures outcome != Broken && !LimitReached() ==> |old(frames)| <= Max(lastSeq, -1) + 1
      ensures outcome == StillOpen && wakes != [] && wakes[|wakes| - 1] == Event(true) ==>
                |frames| <= Max(lastSeq, -1) + 1
      ensures old(Unbroken()) ==> outcome != Broken && Unbroken()
    {
      var broken := Send(Start);
      if broken { return Broken; }
      broken := SendNewFrames();
      if broken { return Broken; }
      var ended := EndAtLimit();
      if ended.Some? { return ended.value; }
      outcome := Follow(wakes);
    }

    /** The loop of `_stream_session_frames`. */
    method Follow(wakes: seq<Wake>) returns (outcome: Outcome)
      requires Inv() && Running()
      modifies this`frames, this`pending, this`out, this`sent, this`lastSeq
      ensures Inv() && old(frames) <= frames && EndsWith(outcome) && lastSeq >= old(lastSeq)
      ensures outcome == StillOpen ==> DeadlinePassed !in wakes
      ensures outcome == Ended(Timeout) ==> DeadlinePassed in wakes
      ensures outcome == StillOpen && wakes != [] && wakes[|wakes| - 1] == Event(true) ==>
                |frames| <= Max(lastSeq, -1) + 1
      ensures old(Unbroken()) ==> outcome != Broken && Unbroken()
    {
      for k := 0 to |wakes|
        invariant Inv() && Running() && old(frames) <= frames && lastSeq >= old(lastSeq) &&
                    (old(Unbroken()) ==> Unbroken())
        invariant k > 0 && wakes[k - 1] == Event(true) ==> |frames| <= Max(lastSeq, -1) + 1
        invariant forall j | 0 <= j < k :: wakes[j] != DeadlinePassed
      {
        var ended := OnWake(wakes[k]);
        if ended.Some? { return ended.value; }
      }
      return StillOpen;
    }
  }
}
