/** The messages of a broker stream (`stream_message` in the broker) and what makes a stream of them well
    formed. */
module StreamMessages {
  import opened Model

  datatype Reason = MaxItems | Timeout

  datatype Message<T> = Start | Item(value: T) | Heartbeat(items: nat, lastSeq: Option<int>)
                        | End(reason: Reason, items: nat)

  datatype Outcome = Ended(reason: Reason) | Broken | StillOpen

  /** The items among the messages, in order. */
  function Items<T>(out: seq<Message<T>>): seq<T> {
    if out == [] then []
    else
      var last := out[|out| - 1];
      var before := Items(out[..|out| - 1]);
      if last.Item? then before + [last.value] else before
  }

  function Heartbeats<T>(out: seq<Message<T>>): nat {
    if out == [] then 0 else Heartbeats(out[..|out| - 1]) + if out[|out| - 1].Heartbeat? then 1 else 0
  }

  /** A start message opens the stream and nothing else is one; every heartbeat and end message reports the
      number of items before it; nothing follows an end message. */
  ghost predicate WellFormed<T>(out: seq<Message<T>>) {
    out == [] ||
    var front, last := out[..|out| - 1], out[|out| - 1];
    && WellFormed(front)
    && (last.Start? <==> front == [])
    && (last.Heartbeat? || last.End? ==> last.items == |Items(front)|)
    && (front != [] ==> !front[|front| - 1].End?)
  }

  lemma ItemsSnoc<T>(out: seq<Message<T>>, m: Message<T>)
    ensures Items(out + [m]) == if m.Item? then Items(out) + [m.value] else Items(out)
    ensures Heartbeats(out + [m]) == Heartbeats(out) + if m.Heartbeat? then 1 else 0
  {
    assert (out + [m])[..|out|] == out;
  }

  lemma WellFormedSnoc<T>(out: seq<Message<T>>, m: Message<T>)
    requires WellFormed(out) && (out != [] ==> !out[|out| - 1].End?)
    requires m.Start? <==> out == []
    requires m.Heartbeat? || m.End? ==> m.items == |Items(out)|
    ensures WellFormed(out + [m])
  {
    assert (out + [m])[..|out|] == out;
  }
}
