/** The event bus and the event subscription of the broker (`InMemoryEventBus`, `_stream_events`).  At every
    await point other coroutines may store events and, in any order, publish stored ones. */
module EventStream {
  import opened Model
  import opened StreamMessages
  import opened EventDelivery

  /** `queues` holds everything ever put into the queues of the current subscribers. */
  class InMemoryEventBus {
    var events: seq<Event>
    var sequence: nat
    var queues: map<nat, seq<Event>>
    /** History: how many events there were at the subscription. */
    ghost var since: map<nat, nat>

    constructor ()
      ensures Valid() && events == [] && queues == map[]
    {
      events, sequence, queues, since := [], 0, map[], map[];
    }

    /** The counter is an upper bound, so a number handed out is always new; and each queue has received
        exactly the events published since its subscription, in order. */
    ghost predicate Valid()
      reads this
    {
      && (forall e :: e in events ==> 0 < e.sequence <= sequence)
      && queues.Keys == since.Keys
      && (forall q :: q in queues ==> since[q] <= |events| && queues[q] == events[since[q]..])
    }

    /** `publish`: an event without a number gets the next one; every queue gets the event. */
    method Publish(event: Event) returns (published: Event)
      requires Valid()
      modifies this
      ensures Valid() && since == old(since)
      ensures published == event.(sequence := published.sequence)
      ensures if event.sequence != 0 then published == event
              else forall e :: e in old(events) ==> e.sequence < published.sequence
      ensures sequence == if event.sequence != 0 then Max(old(sequence), event.sequence) else old(sequence) + 1
      ensures events == old(events) + [published]
      ensures queues.Keys == old(queues).Keys
      ensures forall q :: q in queues ==> queues[q] == old(queues)[q] + [published]
    {
      published := event;
      if event.sequence != 0 {
        sequence := Max(sequence, event.sequence);
      } else {
        sequence := sequence + 1;
        published := event.(sequence := sequence);
      }
      events := events + [published];
      queues := map q | q in queues :: queues[q] + [published];
    }

    /** `queue` stands for the identity of the new queue object.  From here on it receives every event, and
        none published before. */
    method Subscribe(queue: nat)
      requires Valid() && queue !in queues
      modifies this`queues, this`since
      ensures Valid() && since == old(since)[queue := |events|]
      ensures queues == old(queues)[queue := []]
    {
      queues := queues[queue := []];
      since := since[queue := |events|];
    }

    method Unsubscribe(queue: nat)
      requires Valid()
      modifies this`queues, this`since
      ensures Valid() && since == old(since) - {queue}
      ensures queues == old(queues) - {queue}
    {
      queues := queues - {queue};
      since := since - {queue};
    }
  }

  method PublishAll(bus: InMemoryEventBus, queue: nat, later: seq<Event>)
    requires bus.Valid() && queue in bus.queues
    modifies bus
    ensures bus.Valid() && bus.queues.Keys == old(bus.queues.Keys) && bus.since == old(bus.since)
    ensures old(bus.events) <= bus.events && |bus.events| == |old(bus.events)| + |later|
  {
    for k := 0 to |later|
      invariant bus.Valid() && bus.queues.Keys == old(bus.queues.Keys) && bus.since == old(bus.since)
      invariant old(bus.events) <= bus.events && |bus.events| == |old(bus.events)| + k
    {
      var _ := bus.Publish(later[k]);
    }
  }

  /** A subscriber misses nothing: between its subscription and its end exactly what was published meanwhile
      has come into its queue, in order, and other subscribers are still there. */
  method SubscribedReceivesAll(bus: InMemoryEventBus, queue: nat, later: seq<Event>) returns (received: seq<Event>)
    requires bus.Valid() && queue !in bus.queues
    modifies bus
    ensures bus.Valid() && bus.queues.Keys == old(bus.queues).Keys
    ensures old(bus.events) + received == bus.events && |received| == |later|
  {
    bus.Subscribe(queue);
    PublishAll(bus, queue, later);
    received := bus.queues[queue];
    bus.Unsubscribe(queue);
  }

  /** Steps of other coroutines: `event_store.append`, and `event_bus.publish` of a stored event. */
  datatype EnvStep = Store(resourceType: string, resourceId: string, eventType: string) | Publish(sequence: nat)

  datatype Interference = Interference(steps: seq<EnvStep>, breaks: bool)

  /** The store is numbered from 1, and as long as publication is in order the queue is a stretch of it. */
  ghost predicate WorldOk(store: seq<Event>, unpublished: set<nat>, queued: seq<Event>, taken: nat, base: nat,
                          inOrder: bool) {
    && Numbered(store) && taken <= |queued|
    && (inOrder ==>
          && base + |queued| <= |store|
          && queued == store[base..base + |queued|]
          && (forall n: nat :: n in unpublished <==> base + |queued| < n <= |store|))
  }

  /** `sent` counts the items, `last_sequence` is the highest of them, and the limit is kept. */
  ghost predicate SentOk(out: seq<Message<Event>>, sent: nat, lastSequence: nat, after: nat, maxItems: Option<nat>) {
    && WellFormed(out)
    && sent == |Items(out)|
    && (maxItems.Some? ==> sent <= maxItems.value)
    && lastSequence == Position(Items(out), after)
  }

  lemma ItemSent(out: seq<Message<Event>>, event: Event, after: nat)
    requires WellFormed(out) && out != [] && !out[|out| - 1].End?
    ensures var more := out + [Item(event)];
            && WellFormed(more) && Items(more) == Items(out) + [event] && Heartbeats(more) == Heartbeats(out)
            && Position(Items(more), after) == Max(Position(Items(out), after), event.sequence)
  {
    ItemsSnoc(out, Item(event));
    WellFormedSnoc(out, Item(event));
    PositionSnoc(Items(out), event, after);
  }

  class Stream {
    const after: nat
    const filter: Filter
    const maxItems: Option<nat>
    var store: seq<Event>
    /** Numbers of events stored but not published yet. */
    var unpublished: set<nat>
    /** Everything put into this subscriber's queue, and how much of it has been taken out. */
    var queued: seq<Event>
    var taken: nat
    var out: seq<Message<Event>>
    var sent: nat
    var lastSequence: nat
    var pending: seq<Interference>
    /** History: events published in store order so far, the first `base` of them before the subscription. */
    ghost const base: nat
    ghost var inOrder: bool

    /** `subscribe` on the bus, when all but the `unpublished` events have been published. */
    constructor (store: seq<Event>, unpublished: set<nat>, ghost base: nat, after: nat, filter: Filter,
                 maxItems: Option<nat>, pending: seq<Interference>)
      requires Numbered(store) && base <= |store| && (maxItems.Some? ==> maxItems.value > 0)
      ensures Inv() && out == [] && queued == [] && taken == 0
      ensures this.store == store && this.after == after && this.filter == filter && this.maxItems == maxItems
      ensures this.base == base && (inOrder <==> forall n: nat :: n in unpublished <==> base < n <= |store|)
    {
      this.store, this.unpublished, this.base, this.pending := store, unpublished, base, pending;
      this.after, this.filter, this.maxItems := after, filter, maxItems;
      queued, taken, out, sent, lastSequence := [], 0, [], 0, after;
      inOrder := forall n: nat :: n in unpublished <==> base < n <= |store|;
    }

    ghost predicate WorldInv()
      reads this
    {
      WorldOk(store, unpublished, queued, taken, base, inOrder)
    }

    ghost predicate SentInv()
      reads this
    {
      SentOk(out, sent, lastSequence, after, maxItems)
    }

    ghost predicate Inv()
      reads this
    {
      WorldInv() && SentInv() && (maxItems.Some? ==> maxItems.value > 0)
    }

    predicate Finished()
      reads this
    {
      out != [] && out[|out| - 1].End?
    }

    predicate LimitReached()
      reads this
    {
      maxItems.Some? && sent >= maxItems.value
    }

    predicate Running()
      reads this
    {
      out != [] && !Finished() && !LimitReached()
    }

    /** The connection will not break. */
    predicate Unbroken()
      reads this
    {
      forall i | 0 <= i < |pending| :: !pending[i].breaks
    }

    method EnvironmentStep(step: EnvStep)
      requires WorldInv()
      modifies this`store, this`unpublished, this`queued, this`inOrder
      ensures WorldInv() && old(store) <= store && old(queued) <= queued
      ensures match step
              case Store(resourceType, resourceId, eventType) =>
                store == old(store) + [Event(|old(store)| + 1, resourceType, resourceId, eventType)] &&
                    queued == old(queued)
              case Publish(n) =>
                && store == old(store)
                && queued == old(queued) + if n in old(unpublished) && 1 <= n <= |store| then [store[n - 1]] else []
    {
      match step
      case Store(resourceType, resourceId, eventType) =>
        store := store + [Event(|store| + 1, resourceType, resourceId, eventType)];
        unpublished := unpublished + {|store|};
      case Publish(n) =>
        if n in unpublished && 1 <= n <= |store| {
          inOrder := inOrder && n == base + |queued| + 1;
          unpublished := unpublished - {n};
          queued := queued + [store[n - 1]];
        }
    }

    /** One suspension of the stream. */
    method Suspend() returns (broken: bool)
      requires Inv()
      modifies this`store, this`unpublished, this`queued, this`inOrder, this`pending
      ensures Inv() && old(store) <= store && old(queued) <= queued
      ensures queued[..taken] == old(queued[..taken])
      ensures old(Unbroken()) ==> !broken && Unbroken()
    {
      broken := false;
      if pending != [] {
        var now := pending[0];
        pending := pending[1..];
        for k := 0 to |now.steps|
          invariant WorldInv() && old(store) <= store && old(queued) <= queued && pending == old(pending)[1..]
        {
          EnvironmentStep(now.steps[k]);
        }
        broken := now.breaks;
      }
    }

    method Send(m: Message<Event>) returns (broken: bool)
      requires Inv() && !m.Item? && !Finished() && (out == [] <==> m == Start) &&
                 (m.Heartbeat? || m.End? ==> m.items == sent)
      modifies this`store, this`unpublished, this`queued, this`inOrder, this`pending, this`out
      ensures Inv() && old(store) <= store && old(queued) <= queued
      ensures queued[..taken] == old(queued[..taken])
      ensures out == if broken then old(out) else old(out) + [m]
      ensures Items(out) == Items(old(out))
      ensures old(Unbroken()) ==> !broken && Unbroken()
      ensures Heartbeats(out) == Heartbeats(old(out)) + if !broken && m.Heartbeat? then 1 else 0
    {
      broken := Suspend();
      if !broken {
        ItemsSnoc(out, m);
        WellFormedSnoc(out, m);
        out := out + [m];
      }
    }

    method SendEvent(event: Event) returns (broken: bool)
      requires Inv() && Running()
      modifies this`store, this`unpublished, this`queued, this`inOrder, this`pending, this`out, this`sent,
               this`lastSequence
      ensures Inv() && old(store) <= store && old(queued) <= queued && out != [] && !Finished()
      ensures queued[..taken] == old(queued[..taken])
      ensures broken ==> Items(out) == Items(old(out)) && lastSequence == old(lastSequence) && sent == old(sent)
      ensures !broken ==> Items(out) == Items(old(out)) + [event]
      ensures old(Unbroken()) ==> !broken && Unbroken()
      ensures Heartbeats(out) == Heartbeats(old(out))
    {
      broken := Suspend();
      if !broken {
        RecordSent(event);
      }
    }

    /** The item is out: count it, and move `last_sequence`. */
    method RecordSent(event: Event)
      requires Inv() && Running()
      modifies this`out, this`sent, this`lastSequence
      ensures Inv() && out != [] && !Finished()
      ensures Items(out) == Items(old(out)) + [event] && Heartbeats(out) == Heartbeats(old(out))
    {
      ItemSent(out, event, after);
      out := out + [Item(event)];
      sent := sent + 1;
      lastSequence := Max(lastSequence, event.sequence);
    }

    /** The replay loop over the snapshot `list_events` returned. */
    method Replay(list: seq<Event>) returns (outcome: Option<Outcome>)
      requires Inv() && Running() && Items(out) == []
      modifies this`store, this`unpublished, this`queued, this`inOrder, this`pending, this`out, this`sent,
               this`lastSequence
      ensures Inv() && out != [] && old(store) <= store && old(queued) <= queued
      ensures Items(out) <= Wanted(list, after, filter)
      ensures outcome == None ==> Items(out) == Wanted(list, after, filter) && Running()
      ensures outcome.Some? ==> EndsWith(outcome.value) && outcome.value in {Broken, Ended(MaxItems)}
      ensures old(Unbroken()) ==> outcome != Some(Broken) && Unbroken()
      ensures Heartbeats(out) == Heartbeats(old(out))
    {
      assert list[..0] == [];
      for k := 0 to |list|
        invariant Inv() && Running() && old(store) <= store && old(queued) <= queued
        invariant Items(out) == Wanted(list[..k], after, filter)
        invariant (old(Unbroken()) ==> Unbroken()) && Heartbeats(out) == Heartbeats(old(out))
      {
        outcome := ReplayOne(list, k);
        if outcome.Some? {
          WantedGrows(list, k);
          WantedGrows(list, k + 1);
          return;
        }
      }
      assert list[..|list|] == list;
      return None;
    }

    /** One turn of the replay loop. */
    method ReplayOne(list: seq<Event>, k: nat) returns (outcome: Option<Outcome>)
      requires Inv() && Running() && k < |list| && Items(out) == Wanted(list[..k], after, filter)
      modifies this`store, this`unpublished, this`queued, this`inOrder, this`pending, this`out, this`sent,
               this`lastSequence
      ensures Inv() && out != [] && old(store) <= store && old(queued) <= queued
      ensures Items(out) == Wanted(list[..k + 1], after, filter) ||
                (outcome.Some? && Items(out) == Wanted(list[..k], after, filter))
      ensures outcome == None ==> Running()
      ensures outcome.Some? ==> EndsWith(outcome.value) && (outcome.value == Broken || outcome.value == Ended(MaxItems))
      ensures old(Unbroken()) ==> outcome != Some(Broken) && Unbroken()
      ensures Heartbeats(out) == Heartbeats(old(out))
    {
      var event := list[k];
      WantedAt(list, k, after, filter);
      if event.sequence <= after { return None; }
      if !Matches(event, filter) { return None; }
      var broken := SendEvent(event);
      if broken { return Some(Broken); }
      outcome := EndIfLimitReached();
    }

    /** `if self._limit_reached(...)`: send the end message. */
    method EndIfLimitReached() returns (outcome: Option<Outcome>)
      requires Inv() && out != [] && !Finished()
      modifies this`store, this`unpublished, this`queued, this`inOrder, this`pending, this`out
      ensures Inv() && out != [] && old(store) <= store && old(queued) <= queued
      ensures queued[..taken] == old(queued[..taken])
      ensures Items(out) == Items(old(out))
      ensures outcome == None ==> Running() && queued == old(queued)
      ensures outcome.Some? ==> EndsWith(outcome.value) && (outcome.value == Broken || outcome.value == Ended(MaxItems))
      ensures old(Unbroken()) ==> outcome != Some(Broken) && Unbroken()
      ensures Heartbeats(out) == Heartbeats(old(out))
    {
      if !LimitReached() { return None; }
      var broken := Send(End(MaxItems, sent));
      outcome := Some(if broken then Broken else Ended(MaxItems));
    }

    lemma {:induction false} WantedGrows(list: seq<Event>, k: nat)
      requires k <= |list|
      ensures Wanted(list[..k], after, filter) <= Wanted(list, after, filter)
      decreases |list|
    {
      if k < |list| {
        WantedGrows(list[..|list| - 1], k);
        assert list[..|list| - 1][..k] == list[..k];
      } else {
        assert list[..k] == list;
      }
    }

    /** The messages agree with how the stream came to its end. */
    predicate EndsWith(outcome: Outcome)
      reads this
    {
      && (outcome.Ended? <==> Finished())
      && (outcome.Ended? ==> out[|out| - 1] == End(outcome.reason, sent))
      && (outcome == Ended(MaxItems) ==> LimitReached())
      && (outcome == StillOpen ==> !LimitReached())
    }

    /** What is sent when `snapshot` was replayed and `taken` events have been dequeued. */
    ghost function Expected(snapshot: seq<Event>): seq<Event>
      requires taken <= |queued|
      reads this
    {
      Sent(snapshot, queued[..taken], after, filter)
    }

    /** One turn of the live loop: `None` means that it goes on. */
    method LiveTurn(deadlinePassed: bool, ghost snapshot: seq<Event>) returns (outcome: Option<Outcome>)
      requires Inv() && out != [] && !Finished() && Items(out) == Expected(snapshot)
      modifies this`store, this`unpublished, this`queued, this`inOrder, this`pending, this`out, this`sent,
               this`lastSequence, this`taken
      ensures Inv() && out != [] && old(store) <= store && old(queued) <= queued
      ensures old(taken) <= taken && (old(taken) < |old(queued)| && outcome == None ==> old(taken) < taken)
      ensures Items(out) <= Expected(snapshot)
      ensures outcome != Some(Broken) ==> Items(out) == Expected(snapshot)
      ensures outcome == None ==> !Finished() && !deadlinePassed
      ensures outcome.Some? ==> EndsWith(outcome.value) && outcome.value != StillOpen
      ensures outcome == Some(Ended(Timeout)) ==> deadlinePassed
      ensures old(Unbroken()) ==> outcome != Some(Broken) && Unbroken()
      ensures outcome == None ==> taken + Heartbeats(out) == old(taken) + Heartbeats(old(out)) + 1
    {
      outcome := EndIfLimitReached();
      if outcome.Some? { return; }
      if deadlinePassed {
        var broken := Send(End(Timeout, sent));
        return Some(if broken then Broken else Ended(Timeout));
      }
      var broken := AwaitEvent(snapshot);
      return if broken then Some(Broken) else None;
    }

    /** Wait for an event or for the heartbeat. */
    method AwaitEvent(ghost snapshot: seq<Event>) returns (broken: bool)
      requires Inv() && Running() && Items(out) == Expected(snapshot)
      modifies this`store, this`unpublished, this`queued, this`inOrder, this`pending, this`out, this`sent,
               this`lastSequence, this`taken
      ensures Inv() && out != [] && !Finished() && old(store) <= store && old(queued) <= queued
      ensures old(taken) <= taken && (old(taken) < |old(queued)| && !broken ==> old(taken) < taken)
      ensures Items(out) <= Expected(snapshot)
      ensures !broken ==> Items(out) == Expected(snapshot)
      ensures old(Unbroken()) ==> !broken && Unbroken()
      ensures !broken ==> taken + Heartbeats(out) == old(taken) + Heartbeats(old(out)) + 1
    {
      broken := Suspend();
      if broken { return; }
      if taken == |queued| {
        broken := Send(Heartbeat(sent, None));
      } else {
        broken := TakeOne(snapshot);
      }
    }

    /** Dequeue an event; drop it if it is not above `last_sequence` or does not match, else send it. */
    method TakeOne(ghost snapshot: seq<Event>) returns (broken: bool)
      requires Inv() && Running() && Items(out) == Expected(snapshot) && taken < |queued|
      modifies this`store, this`unpublished, this`queued, this`inOrder, this`pending, this`out, this`sent,
               this`lastSequence, this`taken
      ensures Inv() && out != [] && !Finished() && old(store) <= store && old(queued) <= queued
      ensures taken == old(taken) + 1
      ensures Items(out) <= Expected(snapshot)
      ensures !broken ==> Items(out) == Expected(snapshot)
      ensures old(Unbroken()) ==> !broken && Unbroken()
      ensures Heartbeats(out) == Heartbeats(old(out))
    {
      var event := queued[taken];
      taken := taken + 1;
      ghost var before := old(queued[..taken]);
      assert queued[..taken] == before + [event];
      SentGrows(snapshot, before, event, after, filter);
      broken := false;
      if event.sequence <= lastSequence { return; }
      if !Matches(event, filter) { return; }
      broken := SendTaken(event, before, snapshot);
    }

    /** The event just dequeued is to be sent. */
    method SendTaken(event: Event, ghost before: seq<Event>, ghost snapshot: seq<Event>) returns (broken: bool)
      requires Inv() && Running() && queued[..taken] == before + [event]
      requires Items(out) == Sent(snapshot, before, after, filter)
      requires Sent(snapshot, before + [event], after, filter) == Items(out) + [event]
      modifies this`store, this`unpublished, this`queued, this`inOrder, this`pending, this`out, this`sent,
               this`lastSequence
      ensures Inv() && out != [] && !Finished() && old(store) <= store && old(queued) <= queued
      ensures Items(out) <= Expected(snapshot)
      ensures !broken ==> Items(out) == Expected(snapshot)
      ensures old(Unbroken()) ==> !broken && Unbroken()
      ensures Heartbeats(out) == Heartbeats(old(out))
    {
      broken := SendEvent(event);
      assert queued[..taken] == before + [event];
    }

    /** The live loop. */
    method Live(turns: seq<bool>, ghost snapshot: seq<Event>) returns (outcome: Outcome)
      requires Inv() && out != [] && !Finished() && Items(out) == Expected(snapshot)
      modifies this`store, this`unpublished, this`queued, this`inOrder, this`pending, this`out, this`sent,
               this`lastSequence, this`taken
      ensures Inv() && old(store) <= store
      ensures outcome == StillOpen || EndsWith(outcome)
      ensures Items(out) <= Expected(snapshot)
      ensures outcome != Broken ==> Items(out) == Expected(snapshot)
      ensures outcome == StillOpen ==> true !in turns
      ensures outcome == Ended(Timeout) ==> true in turns
      ensures old(Unbroken()) ==> outcome != Broken && Unbroken()
      ensures outcome == StillOpen ==> taken + Heartbeats(out) == old(taken) + Heartbeats(old(out)) + |turns|
    {
      for k := 0 to |turns|
        invariant Inv() && out != [] && !Finished() && old(store) <= store
        invariant Items(out) == Expected(snapshot)
        invariant forall j | 0 <= j < k :: !turns[j]
        invariant (old(Unbroken()) ==> Unbroken()) && taken + Heartbeats(out) == old(taken) + Heartbeats(old(out)) + k
      {
        var ended := LiveTurn(turns[k], snapshot);
        if ended.Some? { return ended.value; }
      }
      return StillOpen;
    }

    lemma NothingTaken(snapshot: seq<Event>)
      requires taken == 0
      ensures Expected(snapshot) == Wanted(snapshot, after, filter)
    {
      assert queued[..taken] == [];
    }

    /** `_stream_events`.  Each element of `turns` is one turn of the live loop and says whether the
        deadline has passed; the stream is left waiting when they are used up.  What has been sent is always
        a prefix of `Sent`, and all of it unless the connection broke or the replay reached the limit; it lies
        above `after` and is of the type, resource and event types asked for; and if the bus publishes in
        store order, that is every such event, without a gap. */
    method SubscribeEvents(turns: seq<bool>) returns (outcome: Outcome, ghost snapshot: seq<Event>)
      requires Inv() && out == [] && taken == 0 && base <= |store|
      modifies this`store, this`unpublished, this`queued, this`inOrder, this`pending, this`out, this`sent,
               this`lastSequence, this`taken
      ensures Inv() && old(store) <= snapshot <= store
      ensures outcome == StillOpen || EndsWith(outcome)
      ensures Items(out) <= Expected(snapshot)
      ensures outcome in {StillOpen, Ended(Timeout)} ==> Items(out) == Expected(snapshot)
      ensures outcome == StillOpen ==> true !in turns
      ensures OnlyAskedFor(Items(out), after, filter)
      ensures inOrder && outcome in {StillOpen, Ended(Timeout)} ==>
                var known := store[..Max(|snapshot|, base + taken)];
                Items(out) == Wanted(known, after, filter) && AllAskedFor(Items(out), known, after, filter)
      ensures old(Unbroken()) ==> outcome != Broken && Unbroken()
      ensures outcome == StillOpen ==> taken + Heartbeats(out) == |turns|
    {
      outcome, snapshot := Deliver(turns);
      PrefixIsAskedFor(Items(out), snapshot, queued[..taken], after, filter);
      Complete(snapshot);
    }

    method Deliver(turns: seq<bool>) returns (outcome: Outcome, ghost snapshot: seq<Event>)
      requires Inv() && out == [] && taken == 0 && base <= |store|
      modifies this`store, this`unpublished, this`queued, this`inOrder, this`pending, this`out, this`sent,
               this`lastSequence, this`taken
      ensures Inv() && old(store) <= snapshot <= store
      ensures outcome == StillOpen || EndsWith(outcome)
      ensures Items(out) <= Expected(snapshot)
      ensures outcome in {StillOpen, Ended(Timeout)} ==> Items(out) == Expected(snapshot)
      ensures outcome == StillOpen ==> true !in turns
      ensures old(Unbroken()) ==> outcome != Broken && Unbroken()
      ensures outcome == StillOpen ==> taken + Heartbeats(out) == |turns|
    {
      var broken := Begin();
      snapshot := store;
      if broken { return Broken, snapshot; }
      outcome := ReplayThenLive(turns);
    }

    /** Send the start message and ask for the stored events. */
    method Begin() returns (broken: bool)
      requires Inv() && out == []
      modifies this`store, this`unpublished, this`queued, this`inOrder, this`pending, this`out
      ensures Inv() && old(store) <= store
      ensures Items(out) == [] && !Finished()
      ensures !broken ==> Running()
      ensures old(Unbroken()) ==> !broken && Unbroken()
      ensures Heartbeats(out) == 0
    {
      broken := Send(Start);
      if broken { return; }
      broken := Suspend();
    }

    method ReplayThenLive(turns: seq<bool>) returns (outcome: Outcome)
      requires Inv() && Running() && Items(out) == [] && taken == 0
      modifies this`store, this`unpublished, this`queued, this`inOrder, this`pending, this`out, this`sent,
               this`lastSequence, this`taken
      ensures Inv() && old(store) <= store
      ensures outcome == StillOpen || EndsWith(outcome)
      ensures Items(out) <= Expected(old(store))
      ensures outcome in {StillOpen, Ended(Timeout)} ==> Items(out) == Expected(old(store))
      ensures outcome == StillOpen ==> true !in turns
      ensures old(Unbroken()) ==> outcome != Broken && Unbroken()
      ensures outcome == StillOpen ==> taken + Heartbeats(out) == Heartbeats(old(out)) + |turns|
    {
      ghost var snapshot := store;
      var ended := Replay(store);
      NothingTaken(snapshot);
      if ended.Some? { return ended.value; }
      outcome := Live(turns, snapshot);
    }

    lemma Complete(snapshot: seq<Event>)
      requires WorldInv() && snapshot <= store && base <= |snapshot|
      ensures inOrder ==>
                var known := store[..Max(|snapshot|, base + taken)];
                && Expected(snapshot) == Wanted(known, after, filter)
                && AllAskedFor(Expected(snapshot), known, after, filter)
    {
      if inOrder {
        assert queued[..taken] == store[base..base + taken];
        HandoffIsComplete(store, snapshot, queued[..taken], base, after, filter);
      }
    }
  }
}
