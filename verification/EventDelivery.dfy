/** What an event subscription delivers: a replay of the stored events, then the live queue with the
    de-duplication of `_stream_events`, and when nothing is lost at or after the switch. */
module EventDelivery {
  import opened Model

  datatype Event = Event(sequence: nat, resourceType: string, resourceId: string, eventType: string)

  datatype Filter = Filter(resourceType: Option<string>, resourceId: Option<string>, eventTypes: set<string>)

  /** `_event_matches`. */
  predicate Matches(e: Event, f: Filter) {
    && (f.resourceType.Some? ==> e.resourceType == f.resourceType.value)
    && (f.resourceId.Some? ==> e.resourceId == f.resourceId.value)
    && (f.eventTypes != {} ==> e.eventType in f.eventTypes)
  }

  /** The matching events of a sequence numbered above `after`. */
  function Wanted(events: seq<Event>, after: nat, f: Filter): seq<Event> {
    if events == [] then []
    else
      var last := events[|events| - 1];
      var before := Wanted(events[..|events| - 1], after, f);
      if last.sequence > after && Matches(last, f) then before + [last] else before
  }

  /** Where `last_sequence` stands after delivering `events` from `after` on. */
  function Position(events: seq<Event>, after: nat): nat {
    if events == [] then after
    else
      var before := Position(events[..|events| - 1], after);
      if events[|events| - 1].sequence > before then events[|events| - 1].sequence else before
  }

  /** The live loop: a dequeued event is sent if it matches and is numbered above everything sent so far. */
  function Delivered(dequeued: seq<Event>, last: nat, f: Filter): seq<Event> {
    if dequeued == [] then []
    else
      var e := dequeued[|dequeued| - 1];
      var before := Delivered(dequeued[..|dequeued| - 1], last, f);
      if e.sequence > Position(before, last) && Matches(e, f) then before + [e] else before
  }

  /** Everything sent: the replay of a snapshot, then what the live loop makes of the dequeued events. */
  function Sent(snapshot: seq<Event>, dequeued: seq<Event>, after: nat, f: Filter): seq<Event> {
    var replay := Wanted(snapshot, after, f);
    replay + Delivered(dequeued, Position(replay, after), f)
  }

  ghost predicate Ascending(events: seq<Event>) {
    forall i, j | 0 <= i < j < |events| :: events[i].sequence < events[j].sequence
  }

  /** Event sequence numbers are positions in the store, counted from 1. */
  ghost predicate Numbered(store: seq<Event>) {
    forall i | 0 <= i < |store| :: store[i].sequence == i + 1
  }

  // ---- Unfolding from the end

  lemma WantedSnoc(events: seq<Event>, e: Event, after: nat, f: Filter)
    ensures Wanted(events + [e], after, f) ==
            if e.sequence > after && Matches(e, f) then Wanted(events, after, f) + [e] else Wanted(events, after, f)
  {
    assert (events + [e])[..|events|] == events;
  }

  lemma WantedAt(events: seq<Event>, k: nat, after: nat, f: Filter)
    requires k < |events|
    ensures Wanted(events[..k + 1], after, f) ==
            if events[k].sequence > after && Matches(events[k], f) then Wanted(events[..k], after, f) + [events[k]]
            else Wanted(events[..k], after, f)
  {
    assert events[..k + 1] == events[..k] + [events[k]];
    WantedSnoc(events[..k], events[k], after, f);
  }

  lemma PositionSnoc(events: seq<Event>, e: Event, after: nat)
    ensures Position(events + [e], after) ==
            if e.sequence > Position(events, after) then e.sequence else Position(events, after)
  {
    assert (events + [e])[..|events|] == events;
  }

  lemma DeliveredSnoc(dequeued: seq<Event>, e: Event, last: nat, f: Filter)
    ensures Delivered(dequeued + [e], last, f) ==
            if e.sequence > Position(Delivered(dequeued, last, f), last) && Matches(e, f)
            then Delivered(dequeued, last, f) + [e] else Delivered(dequeued, last, f)
  {
    assert (dequeued + [e])[..|dequeued|] == dequeued;
  }

  lemma {:induction false} PositionIsBound(events: seq<Event>, after: nat)
    ensures Position(events, after) >= after
    ensures forall e :: e in events ==> e.sequence <= Position(events, after)
    ensures Position(events, after) == after || exists e :: e in events && e.sequence == Position(events, after)
  {
    if events != [] {
      var front, last := events[..|events| - 1], events[|events| - 1];
      assert events == front + [last];
      PositionIsBound(front, after);
      if Position(front, after) != after {
        var e :| e in front && e.sequence == Position(front, after);
        assert e in events;
      }
    }
  }

  lemma {:induction false} WantedIsFilter(events: seq<Event>, after: nat, f: Filter)
    ensures forall e :: e in Wanted(events, after, f) <==> e in events && e.sequence > after && Matches(e, f)
  {
    if events != [] {
      var front := events[..|events| - 1];
      assert events == front + [events[|front|]];
      WantedIsFilter(front, after, f);
    }
  }

  lemma {:induction false} WantedAscends(events: seq<Event>, after: nat, f: Filter)
    requires Ascending(events)
    ensures Ascending(Wanted(events, after, f))
  {
    if events != [] {
      var front, last := events[..|events| - 1], events[|events| - 1];
      WantedAscends(front, after, f);
      WantedIsFilter(front, after, f);
      var before := Wanted(front, after, f);
      forall i | 0 <= i < |before| ensures before[i].sequence < last.sequence {
        assert before[i] in front;
        var j :| 0 <= j < |front| && front[j] == before[i];
        assert events[j] == before[i];
      }
    }
  }

  /** Everything sent lies above `after`, has the resource type and the resource id asked for, if any, and one
      of the event types, if any are given. */
  ghost predicate OnlyAskedFor(sent: seq<Event>, after: nat, f: Filter) {
    forall e :: e in sent ==>
      && e.sequence > after
      && (f.resourceType == None || f.resourceType == Some(e.resourceType))
      && (f.resourceId == None || f.resourceId == Some(e.resourceId))
      && (f.eventTypes == {} || e.eventType in f.eventTypes)
  }

  /** And of the events of `store`, no such event is missing. */
  ghost predicate AllAskedFor(sent: seq<Event>, store: seq<Event>, after: nat, f: Filter) {
    forall e :: e in store ==>
      || e.sequence <= after
      || (f.resourceType.Some? && e.resourceType != f.resourceType.value)
      || (f.resourceId.Some? && e.resourceId != f.resourceId.value)
      || (f.eventTypes != {} && e.eventType !in f.eventTypes)
      || e in sent
  }

  lemma WantedIsAskedFor(events: seq<Event>, after: nat, f: Filter)
    ensures OnlyAskedFor(Wanted(events, after, f), after, f)
    ensures AllAskedFor(Wanted(events, after, f), events, after, f)
  {
    WantedIsFilter(events, after, f);
  }

  // ---- Safety, whatever order the bus publishes in

  lemma {:induction false} DeliveredIsSafe(dequeued: seq<Event>, last: nat, f: Filter)
    ensures Ascending(Delivered(dequeued, last, f))
    ensures forall e :: e in Delivered(dequeued, last, f) ==> e in dequeued && e.sequence > last && Matches(e, f)
  {
    if dequeued != [] {
      var front, e := dequeued[..|dequeued| - 1], dequeued[|dequeued| - 1];
      assert dequeued == front + [e];
      DeliveredIsSafe(front, last, f);
      var before := Delivered(front, last, f);
      PositionIsBound(before, last);
      if e.sequence > Position(before, last) && Matches(e, f) {
        forall i | 0 <= i < |before| ensures before[i].sequence < e.sequence {
          assert before[i] in before;
        }
      }
    }
  }

  /** The events sent have strictly increasing numbers, all above `after`; each was replayed from the store or
      taken from the queue, and has the resource type and the resource id asked for, and one of the event
      types. */
  lemma SentIsSafe(snapshot: seq<Event>, dequeued: seq<Event>, after: nat, f: Filter)
    requires Numbered(snapshot)
    ensures Ascending(Sent(snapshot, dequeued, after, f))
    ensures OnlyAskedFor(Sent(snapshot, dequeued, after, f), after, f)
    ensures forall e :: e in Sent(snapshot, dequeued, after, f) ==> e in snapshot || e in dequeued
  {
    var replay := Wanted(snapshot, after, f);
    var live := Delivered(dequeued, Position(replay, after), f);
    WantedIsFilter(snapshot, after, f);
    WantedAscends(snapshot, after, f);
    PositionIsBound(replay, after);
    DeliveredIsSafe(dequeued, Position(replay, after), f);
    forall r, d | r in replay && d in live ensures r.sequence < d.sequence {}
    ConcatAscends(replay, live);
  }

  lemma ConcatAscends(a: seq<Event>, b: seq<Event>)
    requires Ascending(a) && Ascending(b)
    requires forall x, y :: x in a && y in b ==> x.sequence < y.sequence
    ensures Ascending(a + b)
  {
    var all := a + b;
    forall i, j | 0 <= i < j < |all| ensures all[i].sequence < all[j].sequence {
      if i < |a| <= j { assert a[i] in a && b[j - |a|] in b; }
    }
  }

  // ---- Completeness

  const UNFILTERED := Filter(None, None, {})

  /** Without a filter everything above `after` is wanted, and with one exactly those events of it that have
      the resource type and the resource id asked for, and one of the event types. */
  lemma FilterSelects(events: seq<Event>, after: nat, f: Filter)
    ensures forall e :: e in Wanted(events, after, UNFILTERED) <==> e in events && e.sequence > after
    ensures forall e :: e in Wanted(events, after, f) <==>
              && e in Wanted(events, after, UNFILTERED)
              && (f.resourceType == None || f.resourceType == Some(e.resourceType))
              && (f.resourceId == None || f.resourceId == Some(e.resourceId))
              && (f.eventTypes == {} || e.eventType in f.eventTypes)
  {
    WantedIsFilter(events, after, UNFILTERED);
    WantedIsFilter(events, after, f);
  }

  /** The live loop loses nothing it should have sent exactly if the wanted events come out of the queue in
      ascending order. */
  lemma {:induction false} NothingLostIffAscending(dequeued: seq<Event>, last: nat, f: Filter)
    ensures Delivered(dequeued, last, f) == Wanted(dequeued, last, f) <==> Ascending(Wanted(dequeued, last, f))
  {
    DeliveredIsSafe(dequeued, last, f);
    if Ascending(Wanted(dequeued, last, f)) {
      AscendingIsDelivered(dequeued, last, f);
    }
  }

  lemma {:induction false} AscendingIsDelivered(dequeued: seq<Event>, last: nat, f: Filter)
    requires Ascending(Wanted(dequeued, last, f))
    ensures Delivered(dequeued, last, f) == Wanted(dequeued, last, f)
  {
    if dequeued != [] {
      var front, e := dequeued[..|dequeued| - 1], dequeued[|dequeued| - 1];
      var wanted, before := Wanted(dequeued, last, f), Wanted(front, last, f);
      forall i, j | 0 <= i < j < |before| ensures before[i].sequence < before[j].sequence {
        assert wanted[i] == before[i] && wanted[j] == before[j];
      }
      AscendingIsDelivered(front, last, f);
      PositionIsBound(before, last);
      if e.sequence > last && Matches(e, f) && Position(before, last) != last {
        var top :| top in before && top.sequence == Position(before, last);
        var i :| 0 <= i < |before| && before[i] == top;
        assert wanted[i] == top && wanted[|before|] == e;
      }
    }
  }

  /** When the bus publishes in store order, there is no gap at the switch from replay to live: the queue
      holds the store from some point `first` not after the snapshot, and what is sent are exactly the
      matching events above `after`, up to the highest one replayed or dequeued. */
  lemma {:induction false} InOrderHandoffHasNoGap(store: seq<Event>, snapshotEnd: nat, first: nat, taken: nat,
                                                  after: nat, f: Filter)
    requires Numbered(store) && first <= snapshotEnd <= |store| && first <= taken <= |store|
    ensures Sent(store[..snapshotEnd], store[first..taken], after, f) ==
              Wanted(store[..Max(snapshotEnd, taken)], after, f)
    decreases taken
  {
    var replay := Wanted(store[..snapshotEnd], after, f);
    if taken == first {
      assert store[first..taken] == [];
    } else {
      InOrderHandoffHasNoGap(store, snapshotEnd, first, taken - 1, after, f);
      var known := Max(snapshotEnd, taken - 1);
      assert Max(snapshotEnd, taken) == if taken - 1 == known then taken else known;
      assert store[first..taken] == store[first..taken - 1] + [store[taken - 1]];
      HandoffStep(store, known, taken - 1, store[..snapshotEnd], store[first..taken - 1], after, f);
    }
  }

  lemma HandoffStep(store: seq<Event>, known: nat, i: nat, snapshot: seq<Event>, before: seq<Event>, after: nat,
                    f: Filter)
    requires Numbered(store) && i < |store| && i <= known <= |store|
    requires Sent(snapshot, before, after, f) == Wanted(store[..known], after, f)
    ensures Sent(snapshot, before + [store[i]], after, f) ==
              Wanted(store[..if i == known then i + 1 else known], after, f)
  {
    SentGrows(snapshot, before, store[i], after, f);
    HandoffGrows(store, known, i, after, f);
  }

  /** Taking the i-th event adds it to what is known only if it is the next one. */
  lemma HandoffGrows(store: seq<Event>, known: nat, i: nat, after: nat, f: Filter)
    requires Numbered(store) && i < |store| && i <= known <= |store|
    ensures var wanted := Wanted(store[..known], after, f);
            Wanted(store[..if i == known then i + 1 else known], after, f) ==
            if store[i].sequence > Position(wanted, after) && Matches(store[i], f) then wanted + [store[i]] else wanted
  {
    PositionCovers(store, known, i, after, f);
    if i == known {
      assert store[..i + 1] == store[..i] + [store[i]];
      WantedSnoc(store[..i], store[i], after, f);
    }
  }

  /** An event of the store lies above everything wanted before it, and not above what it is part of. */
  lemma PositionCovers(store: seq<Event>, known: nat, i: nat, after: nat, f: Filter)
    requires Numbered(store) && i < |store| && i <= known <= |store|
    ensures var position := Position(Wanted(store[..known], after, f), after);
            && (i < known && Matches(store[i], f) ==> store[i].sequence <= position)
            && (i == known && store[i].sequence > after ==> store[i].sequence > position)
            && after <= position
  {
    PositionOfWanted(store, known, after, f);
  }

  /** One more dequeued event is sent when it matches and lies above everything sent. */
  lemma SentGrows(snapshot: seq<Event>, before: seq<Event>, event: Event, after: nat, f: Filter)
    ensures var sent := Sent(snapshot, before, after, f);
            Sent(snapshot, before + [event], after, f) ==
            if event.sequence > Position(sent, after) && Matches(event, f) then sent + [event] else sent
  {
    var replay := Wanted(snapshot, after, f);
    DeliveredSnoc(before, event, Position(replay, after), f);
    PositionConcat(replay, Delivered(before, Position(replay, after), f), after);
  }

  lemma {:induction false} PositionConcat(first: seq<Event>, second: seq<Event>, after: nat)
    ensures Position(first + second, after) == Position(second, Position(first, after))
  {
    if second == [] {
      assert first + second == first;
    } else {
      var front := second[..|second| - 1];
      assert first + second == (first + front) + [second[|second| - 1]];
      PositionConcat(first, front, after);
      PositionSnoc(first + front, second[|second| - 1], after);
    }
  }

  /** What has been sent so far is as asked for; and at a switch without a gap, all of it is sent. */
  lemma PrefixIsAskedFor(sent: seq<Event>, snapshot: seq<Event>, dequeued: seq<Event>, after: nat, f: Filter)
    requires Numbered(snapshot) && sent <= Sent(snapshot, dequeued, after, f)
    ensures OnlyAskedFor(sent, after, f)
  {
    SentIsSafe(snapshot, dequeued, after, f);
    forall e | e in sent ensures e in Sent(snapshot, dequeued, after, f) {
      var i :| 0 <= i < |sent| && sent[i] == e;
      assert Sent(snapshot, dequeued, after, f)[i] == e;
    }
  }

  lemma HandoffIsComplete(store: seq<Event>, snapshot: seq<Event>, dequeued: seq<Event>, first: nat, after: nat,
                          f: Filter)
    requires Numbered(store) && snapshot <= store && first <= |snapshot| && first + |dequeued| <= |store|
    requires dequeued == store[first..first + |dequeued|]
    ensures var known := store[..Max(|snapshot|, first + |dequeued|)];
            && Sent(snapshot, dequeued, after, f) == Wanted(known, after, f)
            && AllAskedFor(Sent(snapshot, dequeued, after, f), known, after, f)
  {
    assert snapshot == store[..|snapshot|];
    InOrderHandoffHasNoGap(store, |snapshot|, first, first + |dequeued|, after, f);
    WantedIsAskedFor(store[..Max(|snapshot|, first + |dequeued|)], after, f);
  }

  /** In a prefix of the store, `last_sequence` has reached every wanted event and goes no further than the
      prefix, or than `after`. */
  lemma PositionOfWanted(store: seq<Event>, n: nat, after: nat, f: Filter)
    requires Numbered(store) && n <= |store|
    ensures Position(Wanted(store[..n], after, f), after) <= Max(n, after)
    ensures forall i | 0 <= i < n && Matches(store[i], f) :: i + 1 <= Position(Wanted(store[..n], after, f), after)
    ensures Position(Wanted(store[..n], after, f), after) >= after
  {
    var wanted := Wanted(store[..n], after, f);
    WantedIsFilter(store[..n], after, f);
    PositionIsBound(wanted, after);
    forall i | 0 <= i < n && Matches(store[i], f) ensures i + 1 <= Position(wanted, after) {
      assert store[i] in store[..n];
    }
  }

  lemma DeliveredOne(e: Event, last: nat, f: Filter)
    requires e.sequence > last && Matches(e, f)
    ensures Delivered([e], last, f) == [e] && Position([e], last) == e.sequence
  {
    assert [e][..0] == [];
  }

  /** Published out of store order, a matching event is lost for good: of any two, dequeued in the wrong
      order, only the later one is ever sent. */
  lemma OutOfOrderLosesTheEarlier(one: Event, two: Event, last: nat, f: Filter)
    requires last < one.sequence < two.sequence && Matches(one, f) && Matches(two, f)
    ensures Delivered([two, one], last, f) == [two]
    ensures Delivered([one, two], last, f) == [one, two]
  {
    assert [two] + [one] == [two, one] && [one] + [two] == [one, two];
    DeliveredOne(one, last, f);
    DeliveredOne(two, last, f);
    DeliveredSnoc([two], one, last, f);
    DeliveredSnoc([one], two, last, f);
  }
}
