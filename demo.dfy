/** The program's own demonstration: classes `A` and `B` extending `Event`,
    a subscriber of `B` that publishes three `A` events, subscribers of `A`
    and of `Event`, and one publish of a `B`. A diamond of interfaces is
    added to the hierarchy to exercise the resolver's deduplication. */
module Demo {
  import opened TypeGraph
  import opened Resolver
  import opened Registry
  import opened Dispatch
  import opened Bus

  const ObjectType: TypeId := 0
  const EventType: TypeId := 1
  const AType: TypeId := 2
  const BType: TypeId := 3
  /** The diamond: `Top`, two interfaces `Left` and `Right` extending it,
      and a class `Both` implementing `Left` and `Right`. */
  const Top: TypeId := 4
  const Left: TypeId := 5
  const Right: TypeId := 6
  const Both: TypeId := 7

  function DemoDecl(t: TypeId): TypeDecl {
    if t == EventType then TypeDecl(Class, Some(ObjectType), [], 1)
    else if t == AType || t == BType then TypeDecl(Class, Some(EventType), [], 2)
    else if t == Top then TypeDecl(Interface, None, [], 0)
    else if t == Left || t == Right then TypeDecl(Interface, None, [Top], 1)
    else if t == Both then TypeDecl(Class, Some(ObjectType), [Left, Right], 2)
    else TypeDecl(Class, None, [], 0)
  }

  lemma DemoGraphValid()
    ensures ValidGraph(DemoDecl)
  {
    forall t
      ensures WellFormedAt(DemoDecl, t)
    {
      var d := DemoDecl(t);
      forall k | 0 <= k < |d.interfaces|
        ensures DemoDecl(d.interfaces[k]).kind == Interface && DemoDecl(d.interfaces[k]).level < d.level
      {
        assert d.interfaces[k] in {Top, Left, Right};
      }
    }
  }

  /** The subscriber of `B` (channel 0) publishes `A("1")`, `A("2")`, `A("3")`;
      no other subscriber publishes. */
  function DemoReact(ch: ChannelId, e: Event): seq<Event> {
    if ch == 0 && e.ty == BType then [Event(AType, "1"), Event(AType, "2"), Event(AType, "3")] else []
  }

  /** The listening keys of an event class `A` or `B`: itself, `Event`, `Object`. */
  lemma EventClassKeys(t: TypeId)
    requires t == AType || t == BType
    ensures ValidGraph(DemoDecl)
    ensures Collect(DemoDecl, t, []) == [t, EventType, ObjectType]
  {
    DemoGraphValid();
    var g := DemoDecl;
    assert Insert([t, EventType], ObjectType) == [t, EventType, ObjectType];
    CollectStep(g, ObjectType, [t, EventType]);
    assert Insert([t], EventType) == [t, EventType];
    CollectStep(g, EventType, [t]);
    assert Insert([], t) == [t];
    CollectStep(g, t, []);
  }

  /** Below the diamond's class: each of `Left` and `Right` adds only `Top`,
      the first time. */
  lemma SidesKeys()
    ensures ValidGraph(DemoDecl)
    ensures CollectEach(DemoDecl, [Left, Right], [Both, Left, Right], 2) == [Both, Left, Right, Top]
  {
    DemoGraphValid();
    var g := DemoDecl;
    var s0 := [Both, Left, Right];
    var s1 := [Both, Left, Right, Top];
    assert Insert(s0, Top) == s1;
    CollectStep(g, Top, s0);
    assert AddAll(s1, []) == s1;
    assert AddAll(s0, [Top]) == s1;
    CollectStep(g, Left, s0);
    assert Collect(g, Left, s0) == s1;
    CollectStep(g, Top, s1);
    CollectStep(g, Right, s1);
    assert Collect(g, Right, s1) == s1;
    assert [Left, Right][1..] == [Right];
    assert CollectEach(g, [Right], s1, 2) == s1;
  }

  /** The diamond: `Top` is reached twice but listed once, after both of its
      subinterfaces, and `Object` comes last. */
  lemma DiamondKeys()
    ensures ValidGraph(DemoDecl)
    ensures Collect(DemoDecl, Both, []) == [Both, Left, Right, Top, ObjectType]
  {
    SidesKeys();
    var g := DemoDecl;
    var s0 := [Both, Left, Right];
    var s1 := [Both, Left, Right, Top];
    assert AddAll([Both], [Left, Right]) == s0 by {
      assert Insert([Both], Left) == [Both, Left];
      assert Insert([Both, Left], Right) == s0;
      assert [Left, Right][1..] == [Right];
      assert AddAll(s0, []) == s0;
      assert AddAll([Both, Left], [Right]) == s0;
    }
    assert Insert([], Both) == [Both];
    CollectStep(g, Both, []);
    assert Insert(s1, ObjectType) == s1 + [ObjectType];
    CollectStep(g, ObjectType, s1);
  }

  /** The map after subscribing to `B`, `A` and `Event`, in that order. */
  const DemoSinks: Sinks := map[BType := 0, AType := 1, EventType := 2]

  /** The channels of an `A` or a `B`: its own, then `Event`'s. */
  lemma EventClassSinks(t: TypeId)
    requires t == AType || t == BType
    ensures ValidGraph(DemoDecl)
    ensures GetSinks(DemoDecl, DemoSinks, t) == [DemoSinks[t], 2]
  {
    EventClassKeys(t);
    var keys := [t, EventType, ObjectType];
    assert keys[1..] == [EventType, ObjectType] && keys[1..][1..] == [ObjectType];
    assert Lookup(DemoSinks, [ObjectType]) == [];
    assert Lookup(DemoSinks, [EventType, ObjectType]) == [2];
  }

  /** An event whose two channels' subscribers publish nothing spawns nothing. */
  lemma QuietOnTwo(w: Wiring, e: Event, x: ChannelId, y: ChannelId)
    requires w.react(x, e) == [] && w.react(y, e) == []
    ensures Spawned(w, e, [x, y]) == []
  {
    assert [x, y][..1] == [x] && [x][..0] == [];
    assert Published(w, []) == [];
    assert Spawned(w, e, [x]) == [];
  }

  const BN := Event(BType, "n")
  const A1 := Event(AType, "1")
  const A2 := Event(AType, "2")
  const A3 := Event(AType, "3")

  /** What the demo's `Event` subscriber prints, in order: every event, once. */
  const DemoLog: seq<Delivery> :=
    [Delivery(0, BN), Delivery(2, BN),
     Delivery(1, A1), Delivery(2, A1),
     Delivery(1, A2), Delivery(2, A2),
     Delivery(1, A3), Delivery(2, A3)]

  /** The facts about a bus wired like the demo's that its drain depends on. */
  ghost predicate DemoWired(w: Wiring) {
    && w.sinks(BType) == [0, 2]
    && w.sinks(AType) == [1, 2]
    && w.react == DemoReact
  }

  /** The demo's map gives `B` its own channel and `Event`'s, and `A` likewise. */
  lemma DemoWiringWired(w: Wiring)
    requires ValidGraph(DemoDecl) && w == WiringOf(DemoDecl, DemoSinks, DemoReact)
    ensures DemoWired(w)
  {
    EventClassSinks(BType);
    EventClassSinks(AType);
  }

  /** What the demo's publishes offer to the queue. */
  lemma DemoOffers(w: Wiring)
    requires DemoWired(w)
    ensures Offer(w, BN) == [Entry(BN, [0, 2])]
    ensures Offer(w, A1) == [Entry(A1, [1, 2])]
    ensures Offer(w, A2) == [Entry(A2, [1, 2])]
    ensures Offer(w, A3) == [Entry(A3, [1, 2])]
  {
    assert SinksOf(w, BN) == [0, 2];
    assert SinksOf(w, A1) == [1, 2] && SinksOf(w, A2) == [1, 2] && SinksOf(w, A3) == [1, 2];
  }

  /** What the dispatch of each of the demo's entries queues: the three `A`s
      for the `B`, nothing for an `A`. */
  lemma DemoSpawns(w: Wiring)
    requires DemoWired(w)
    ensures Spawned(w, BN, [0, 2]) == [Entry(A1, [1, 2]), Entry(A2, [1, 2]), Entry(A3, [1, 2])]
    ensures Spawned(w, A1, [1, 2]) == []
    ensures Spawned(w, A2, [1, 2]) == []
    ensures Spawned(w, A3, [1, 2]) == []
  {
    DemoOffers(w);
    assert [A1, A2, A3][..2] == [A1, A2] && [A1, A2][..1] == [A1] && [A1][..0] == [];
    assert Published(w, [A1]) == [Entry(A1, [1, 2])];
    assert Published(w, [A1, A2]) == [Entry(A1, [1, 2]), Entry(A2, [1, 2])];
    assert Published(w, [A1, A2, A3]) == [Entry(A1, [1, 2]), Entry(A2, [1, 2]), Entry(A3, [1, 2])];
    assert [0, 2][..1] == [0] && [0][..0] == [];
    assert Published(w, []) == [];
    assert Spawned(w, BN, [0]) == [Entry(A1, [1, 2]), Entry(A2, [1, 2]), Entry(A3, [1, 2])];
    QuietOnTwo(w, A1, 1, 2);
    QuietOnTwo(w, A2, 1, 2);
    QuietOnTwo(w, A3, 1, 2);
  }

  /** The queue of the demo's drain after each iteration. */
  lemma DemoSteps(w: Wiring)
    requires DemoWired(w)
    ensures Step(w, [Entry(BN, [0, 2])]) == [Entry(A1, [1, 2]), Entry(A2, [1, 2]), Entry(A3, [1, 2])]
    ensures Step(w, [Entry(A1, [1, 2]), Entry(A2, [1, 2]), Entry(A3, [1, 2])]) == [Entry(A2, [1, 2]), Entry(A3, [1, 2])]
    ensures Step(w, [Entry(A2, [1, 2]), Entry(A3, [1, 2])]) == [Entry(A3, [1, 2])]
    ensures Step(w, [Entry(A3, [1, 2])]) == []
  {
    DemoSpawns(w);
  }

  /** The whole drain of the demo's publish: `B` to its own channel and to
      `Event`'s, then each `A` in publication order to `A`'s and `Event`'s. */
  lemma DemoDrain(w: Wiring)
    requires DemoWired(w)
    ensures Finite(w, Offer(w, BN))
    ensures Drain(w, Offer(w, BN)) == DemoLog
  {
    DemoOffers(w);
    DemoSteps(w);
    var q0 := [Entry(BN, [0, 2])];
    var q1 := [Entry(A1, [1, 2]), Entry(A2, [1, 2]), Entry(A3, [1, 2])];
    var q2 := [Entry(A2, [1, 2]), Entry(A3, [1, 2])];
    var q3 := [Entry(A3, [1, 2])];
    assert Run(w, q0, 4) == [];
    assert [1, 2][..1] == [1] && [0, 2][..1] == [0];
    assert Deliveries(A3, [1, 2]) == [Delivery(1, A3), Delivery(2, A3)];
    assert Deliveries(A2, [1, 2]) == [Delivery(1, A2), Delivery(2, A2)];
    assert Deliveries(A1, [1, 2]) == [Delivery(1, A1), Delivery(2, A1)];
    assert Deliveries(BN, [0, 2]) == [Delivery(0, BN), Delivery(2, BN)];
    assert Trace(w, q3, 1) == [Delivery(1, A3), Delivery(2, A3)];
    assert Trace(w, q2, 2) == [Delivery(1, A2), Delivery(2, A2), Delivery(1, A3), Delivery(2, A3)];
    assert Trace(w, q1, 3) == DemoLog[2..];
    assert Trace(w, q0, 4) == DemoLog;
    DrainIsTrace(w, q0, 4);
  }

  /** The demonstration's subscriptions: to `B`, `A`, `Event`, and to
      `Event` again, which gets the channel `Event` already has. */
  method Subscriptions(g: Graph, react: (ChannelId, Event) -> seq<Event>) returns (bus: ReactorBus)
    requires ValidGraph(g)
    ensures fresh(bus) && bus.Valid()
    ensures bus.graph == g && bus.react == react
    ensures bus.eventSinks == DemoSinks
    ensures bus.emitted == [] && bus.queue == [] && !bus.dispatching
  {
    bus := new ReactorBus(g, react);
    var onB := bus.ForEventType(BType);
    assert bus.eventSinks == map[BType := 0];
    var onA := bus.ForEventType(AType);
    assert bus.eventSinks == map[BType := 0, AType := 1];
    var onEvent := bus.ForEventType(EventType);
    assert bus.eventSinks == DemoSinks;
    var onEventAgain := bus.ForEventType(EventType);
    assert onEventAgain == onEvent == 2;
  }

  /** The demonstration run: the subscriptions, then one publish of `B("n")`,
      which every channel's log records in the order the program prints it. */
  method Scenario() returns (bus: ReactorBus)
    ensures bus.eventSinks == DemoSinks
    ensures bus.emitted == DemoLog
    ensures bus.queue == [] && !bus.dispatching
  {
    DemoGraphValid();
    bus := Subscriptions(DemoDecl, DemoReact);
    DemoWiringWired(bus.W());
    DemoDrain(bus.W());
    bus.Publish(BN);
    assert bus.emitted == [] + DemoLog;
  }
}
