/** Status events of orders: a counter and a bounded replay buffer for each order
    (src/orders/order-events.service.ts), and what a reconnecting client is sent
    (src/orders/orders.controller.ts). */
module OrderEvents {

  type OrderId = string

  const BUFFER_SIZE := 100

  datatype Event = Event(id: nat, orderId: OrderId, status: string)

  /** The events of one order, in order, among all that went over the bus. */
  function EventsOf(bus: seq<Event>, order: OrderId): seq<Event> {
    if bus == [] then []
    else
      var last := bus[|bus| - 1];
      EventsOf(bus[..|bus| - 1], order) + if last.orderId == order then [last] else []
  }

  /** Every order's own events are numbered 1, 2, 3, … */
  ghost predicate Numbered(bus: seq<Event>) {
    forall order :: NumberedFor(bus, order)
  }

  predicate NumberedFor(bus: seq<Event>, order: OrderId) {
    Consecutive(EventsOf(bus, order), 1)
  }

  predicate Consecutive(events: seq<Event>, first: int) {
    forall i :: 0 <= i < |events| ==> events[i].id == first + i
  }

  function LastOf(events: seq<Event>, n: nat): seq<Event> {
    if |events| <= n then events else events[|events| - n..]
  }

  function Get<K, V>(m: map<K, V>, k: K, otherwise: V): V {
    if k in m then m[k] else otherwise
  }

  lemma {:induction false} EventsOfMeans(bus: seq<Event>, order: OrderId, e: Event)
    ensures e in EventsOf(bus, order) <==> e in bus && e.orderId == order
  {
    if bus != [] {
      EventsOfMeans(bus[..|bus| - 1], order, e);
      assert bus == bus[..|bus| - 1] + [bus[|bus| - 1]];
    }
  }

  lemma {:induction false} EventsOfJoin(a: seq<Event>, b: seq<Event>, order: OrderId)
    ensures EventsOf(a + b, order) == EventsOf(a, order) + EventsOf(b, order)
  {
    if b == [] {
      assert a + b == a;
    } else {
      var last := |b| - 1;
      assert (a + b)[..|a| + last] == a + b[..last];
      EventsOfJoin(a, b[..last], order);
    }
  }

  /** Pushing and, when too long, shifting keeps exactly the last events. */
  lemma PushShift(events: seq<Event>, e: Event)
    ensures var pushed := LastOf(events, BUFFER_SIZE) + [e];
            LastOf(events + [e], BUFFER_SIZE) == if |pushed| > BUFFER_SIZE then pushed[1..] else pushed
  {
  }

  lemma PushedOnto(bus: seq<Event>, e: Event)
    ensures forall order :: EventsOf(bus + [e], order) == if order == e.orderId then EventsOf(bus, order) + [e] else EventsOf(bus, order)
  {
    assert (bus + [e])[..|bus|] == bus;
  }

  lemma OneMore(events: seq<Event>, e: Event)
    requires Consecutive(events, 1)
    ensures e.id == |events| + 1 ==> Consecutive(events + [e], 1)
  {
  }

  lemma StillNumbered(bus: seq<Event>, e: Event)
    requires Numbered(bus) && e.id == |EventsOf(bus, e.orderId)| + 1
    ensures Numbered(bus + [e])
  {
    PushedOnto(bus, e);
    forall order ensures NumberedFor(bus + [e], order) {
      assert NumberedFor(bus, order);
      OneMore(EventsOf(bus, order), e);
    }
  }

  class OrderEventsService {
    var buffers: map<OrderId, seq<Event>>
    var counters: map<OrderId, nat>
    /** Everything ever sent over the bus. */
    ghost var bus: seq<Event>

    /** Each counter counts its order's events; each buffer is the last hundred of them. */
    ghost predicate Valid()
      reads this
    {
      && Numbered(bus)
      && (forall order :: Get(counters, order, 0) == |EventsOf(bus, order)|)
      && (forall order :: Get(buffers, order, []) == LastOf(EventsOf(bus, order), BUFFER_SIZE))
    }

    constructor ()
      ensures Valid() && bus == []
    {
      buffers, counters, bus := map[], map[], [];
    }

    method EmitStatusChange(order: OrderId, status: string) returns (event: Event)
      requires Valid()
      modifies this
      ensures Valid()
      ensures bus == old(bus) + [event] && event == Event(|EventsOf(old(bus), order)| + 1, order, status)
    {
      hide LastOf, EventsOf, Consecutive;
      ghost var was := bus;
      var nextId := Get(counters, order, 0) + 1;
      counters := counters[order := nextId];
      event := Event(nextId, order, status);
      var buffer := Get(buffers, order, []) + [event];
      if |buffer| > BUFFER_SIZE {
        buffer := buffer[1..];
      }
      buffers := buffers[order := buffer];
      bus := bus + [event];
      PushShift(EventsOf(was, order), event);
      PushedOnto(was, event);
      StillNumbered(was, event);
    }

    /** Exactly the events after `last`, as far back as the last hundred. */
    method MissedSince(order: OrderId, last: int) returns (missed: seq<Event>)
      requires Valid()
      ensures missed == Replay(bus, order, last)
      ensures var all := EventsOf(bus, order);
              var from := if last > |all| - 100 then last else |all| - 100;
              missed == if from <= 0 then all else if from <= |all| then all[from..] else []
    {
      ReplayIs(bus, order, last);
      hide EventsOf, Numbered, Replay;
      missed := [];
      var buffer := Get(buffers, order, []);
      for i := 0 to |buffer|
        invariant missed == Above(buffer[..i], last)
      {
        assert buffer[..i + 1][..i] == buffer[..i];
        if buffer[i].id > last {
          missed := missed + [buffer[i]];
        }
      }
      assert buffer[..|buffer|] == buffer;
    }
  }

  // ---- what a client that reconnects is sent ----

  function Above(events: seq<Event>, last: int): seq<Event> {
    if events == [] then []
    else
      var e := events[|events| - 1];
      Above(events[..|events| - 1], last) + if e.id > last then [e] else []
  }

  function Replay(bus: seq<Event>, order: OrderId, last: int): seq<Event> {
    Above(LastOf(EventsOf(bus, order), BUFFER_SIZE), last)
  }

  /** First the replay, then whatever goes over the bus afterwards. */
  function Sent(bus: seq<Event>, later: seq<Event>, order: OrderId, last: int): seq<Event> {
    Replay(bus, order, last) + EventsOf(later, order)
  }

  lemma {:induction false} AboveIsSuffix(events: seq<Event>, k: nat, last: int)
    requires k <= |events|
    requires forall i :: 0 <= i < |events| ==> (events[i].id > last <==> i >= k)
    ensures Above(events, last) == events[k..]
  {
    if events != [] {
      var before := events[..|events| - 1];
      if k == |events| {
        AboveIsSuffix(before, k - 1, last);
      } else {
        AboveIsSuffix(before, k, last);
        assert events[k..] == before[k..] + [events[|events| - 1]];
      }
    }
  }

  /** The ids a client may resume from: nothing it missed has left the buffer, and it claims no
      event that has not happened. */
  predicate InReach(count: nat, last: int) {
    0 <= last <= count && count - BUFFER_SIZE <= last
  }

  function From(events: seq<Event>, k: int): seq<Event> {
    if k <= 0 then events else if k <= |events| then events[k..] else []
  }

  function Max(a: int, b: int): int {
    if a < b then b else a
  }

  /** What is replayed: the events after `last` that are among the last hundred. */
  lemma ReplayIs(bus: seq<Event>, order: OrderId, last: int)
    requires Numbered(bus)
    ensures var all := EventsOf(bus, order); Replay(bus, order, last) == From(all, Max(last, |all| - BUFFER_SIZE))
  {
    assert NumberedFor(bus, order);
    AboveLast(EventsOf(bus, order), last);
  }

  lemma AboveLast(all: seq<Event>, last: int)
    requires Consecutive(all, 1)
    ensures Above(LastOf(all, BUFFER_SIZE), last) == From(all, Max(last, |all| - BUFFER_SIZE))
  {
    hide Above;
    var dropped := if |all| <= BUFFER_SIZE then 0 else |all| - BUFFER_SIZE;
    var kept := LastOf(all, BUFFER_SIZE);
    assert kept == all[dropped..];
    var k := if last <= dropped then 0 else if last <= |all| then last - dropped else |kept|;
    AboveIsSuffix(kept, k, last);
    assert kept[k..] == all[dropped + k..];
  }

  /** Resuming from an id in reach, the client gets exactly the events after it, to the last one
      of the live stream. */
  lemma ResumeIsSeamless(bus: seq<Event>, later: seq<Event>, order: OrderId, last: int)
    requires Numbered(bus) && Numbered(bus + later) && InReach(|EventsOf(bus, order)|, last)
    ensures Sent(bus, later, order, last) == From(EventsOf(bus + later, order), last)
    ensures Consecutive(Sent(bus, later, order, last), last + 1)
  {
    ReplayIs(bus, order, last);
    EventsOfJoin(bus, later, order);
    assert NumberedFor(bus + later, order);
  }

  ghost predicate Seamless(bus: seq<Event>, order: OrderId, last: int) {
    forall later :: Numbered(bus + later) ==> Consecutive(Sent(bus, later, order, last), last + 1)
  }

  /** There is neither gap nor repeat, whatever happens later, exactly when the id is in reach. */
  lemma SeamlessIff(bus: seq<Event>, order: OrderId, last: int)
    requires Numbered(bus)
    ensures Seamless(bus, order, last) <==> InReach(|EventsOf(bus, order)|, last)
    ensures Seamless(bus, order, last) <==> 0 <= last <= |EventsOf(bus, order)| && |EventsOf(bus, order)| - 100 <= last
  {
    if InReach(|EventsOf(bus, order)|, last) {
      forall later | Numbered(bus + later) ensures Consecutive(Sent(bus, later, order, last), last + 1) {
        ResumeIsSeamless(bus, later, order, last);
      }
    } else {
      OutOfReach(bus, order, last);
    }
  }

  /** Otherwise the very next event shows it. */
  lemma OutOfReach(bus: seq<Event>, order: OrderId, last: int)
    requires Numbered(bus) && !InReach(|EventsOf(bus, order)|, last)
    ensures !Seamless(bus, order, last)
  {
    var all := EventsOf(bus, order);
    var e := Event(|all| + 1, order, "");
    StillNumbered(bus, e);
    ReplayIs(bus, order, last);
    OnlyEvent(e);
    assert NumberedFor(bus, order);
    hide EventsOf, Numbered, Replay;
    WrongStart(all, e, last);
    assert !Consecutive(Sent(bus, [e], order, last), last + 1);
  }

  lemma WrongStart(all: seq<Event>, e: Event, last: int)
    requires Consecutive(all, 1) && e.id == |all| + 1 && !InReach(|all|, last)
    ensures !Consecutive(From(all, Max(last, |all| - BUFFER_SIZE)) + [e], last + 1)
  {
    var sent := From(all, Max(last, |all| - BUFFER_SIZE)) + [e];
    assert sent[0].id != last + 1;
  }

  lemma OnlyEvent(e: Event)
    ensures EventsOf([e], e.orderId) == [e]
  {
    assert [e][..0] == [];
  }
}
