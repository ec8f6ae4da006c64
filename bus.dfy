/** The bus object: the channel map, the per-thread dispatch queue and the
    `dispatching` flag, and the `tryEmitNext` calls it makes, recorded in
    order. `publish` and `EventDispatch.dispatch` are mutually recursive,
    since a subscriber reacting to an emission may publish again. */
module Bus {
  import opened TypeGraph
  import opened Resolver
  import opened Registry
  import opened Dispatch

  class ReactorBus {
    /** The class hierarchy, as reflection reports it. */
    const graph: Graph
    /** What the subscribers of each channel publish when an event reaches them. */
    const react: (ChannelId, Event) -> seq<Event>

    /** `eventSinks`: the listening key of each channel. */
    var eventSinks: Sinks
    /** Every `tryEmitNext` so far, in call order. */
    var emitted: seq<Delivery>
    /** The calling thread's queue of pending `EventDispatch` entries. */
    var queue: seq<Entry>
    /** The calling thread's `dispatching` flag. */
    var dispatching: bool

    /** The channels are numbered in creation order, and the queue holds
        entries only while a drain is running. */
    ghost predicate Valid()
      reads this
    {
      && ValidGraph(graph)
      && WellNumbered(eventSinks)
      && (!dispatching ==> queue == [])
    }

    /** The wiring the current map gives a drain. */
    function W(): Wiring
      requires ValidGraph(graph)
      reads this`eventSinks
    {
      WiringOf(graph, eventSinks, react)
    }

    /** The events that reached channel `ch` so far. */
    function Log(ch: ChannelId): seq<Event>
      reads this`emitted
    {
      LogOf(emitted, ch)
    }

    constructor (g: Graph, react: (ChannelId, Event) -> seq<Event>)
      requires ValidGraph(g)
      ensures Valid()
      ensures graph == g && this.react == react
      ensures eventSinks == map[] && emitted == [] && queue == [] && !dispatching
    {
      graph := g;
      this.react := react;
      eventSinks := map[];
      emitted := [];
      queue := [];
      dispatching := false;
    }

    /** `forEventType(k)`: the channel listening on `k`, created on first use. */
    method ForEventType(k: TypeId) returns (ch: ChannelId)
      requires Valid()
      modifies this`eventSinks
      ensures Valid()
      ensures (eventSinks, ch) == ComputeIfAbsent(old(eventSinks), k)
      ensures k !in old(eventSinks) ==> ch == |old(eventSinks)| && ch !in old(eventSinks).Values
    {
      ComputeIfAbsentNumbering(eventSinks, k);
      if k !in eventSinks {
        eventSinks := eventSinks[k := |eventSinks|];
      }
      ch := eventSinks[k];
    }

    /** `queue.poll()`: the head entry, removed, or nothing when the queue is empty. */
    method Poll() returns (head: Option<Entry>)
      modifies this`queue
      ensures old(queue) == [] ==> head == None && queue == []
      ensures old(queue) != [] ==> head == Some(old(queue)[0]) && old(queue) == [head.value] + queue
    {
      if queue == [] {
        head := None;
      } else {
        head := Some(queue[0]);
        queue := queue[1..];
        assert old(queue) == [head.value] + queue;
      }
    }

    /** `getSinks(eventType)`: the resolver's keys, mapped through the
        channel map, the keys without a channel dropped. */
    method GetSinksOf(ty: TypeId) returns (sinks: seq<ChannelId>)
      requires ValidGraph(graph)
      ensures sinks == GetSinks(graph, eventSinks, ty) == W().sinks(ty)
    {
      var keys := Resolve(graph, ty);
      sinks := Lookup(eventSinks, keys);
    }

    /** `publish(event)`. With no channel for the event's class nothing
        happens. Inside a drain the entry only joins the queue. Otherwise the
        publish drains the queue, breadth first, until it is empty. */
    method Publish(e: Event)
      requires Valid()
      requires !dispatching ==> Finite(W(), Offer(W(), e))
      modifies this
      ensures Valid()
      ensures eventSinks == old(eventSinks) && dispatching == old(dispatching)
      ensures SinksOf(W(), e) == [] ==> queue == old(queue) && emitted == old(emitted)
      ensures old(dispatching) ==> queue == old(queue) + Offer(W(), e) && emitted == old(emitted)
      ensures !old(dispatching) ==> queue == [] && emitted == old(emitted) + Drain(W(), Offer(W(), e))
      decreases if dispatching then 0 else 4
    {
      var sinks := GetSinksOf(e.ty);
      if |sinks| > 0 {
        queue := queue + [Entry(e, sinks)];
        if !dispatching {
          assert queue == Offer(W(), e);
          dispatching := true;
          DrainQueue();
          dispatching := false;
        }
      } else {
        DrainEmpty(W());
      }
    }

    /** The drain loop of `publish`: poll an entry, dispatch it, until the
        queue is empty. */
    method DrainQueue()
      requires Valid() && dispatching && Finite(W(), queue)
      modifies this
      ensures Valid() && dispatching && eventSinks == old(eventSinks)
      ensures queue == [] && emitted == old(emitted) + Drain(W(), old(queue))
      decreases 3
    {
      ghost var w := W();
      ghost var fuel: nat :| Run(w, queue, fuel) == [];
      DrainIsTrace(w, queue, fuel);
      ghost var target := emitted + Trace(w, queue, fuel);
      ghost var pending := queue;
      var next := Poll();
      while next.Some?
        invariant Valid() && dispatching && eventSinks == old(eventSinks)
        invariant pending == if next.Some? then [next.value] + queue else queue
        invariant next.None? ==> queue == []
        invariant Run(w, pending, fuel) == [] && emitted + Trace(w, pending, fuel) == target
        decreases fuel, next.Some?
      {
        assert pending[1..] == queue;
        ghost var before := emitted;
        Dispatch(next.value);
        TraceStep(w, pending, fuel, before, queue);
        fuel := fuel - 1;
        pending := queue;
        next := Poll();
      }
      assert Trace(w, pending, fuel) == [];
    }

    /** `EventDispatch.dispatch()`: the event goes to each sink of the entry
        in list order; whatever the subscribers publish meanwhile is queued. */
    method Dispatch(en: Entry)
      requires Valid() && dispatching
      modifies this
      ensures Valid() && dispatching && eventSinks == old(eventSinks)
      ensures emitted == old(emitted) + Deliveries(en.event, en.sinks)
      ensures queue == old(queue) + Spawned(W(), en.event, en.sinks)
      decreases 2
    {
      ghost var w := W();
      for i := 0 to |en.sinks|
        invariant Valid() && dispatching && eventSinks == old(eventSinks)
        invariant emitted == old(emitted) + Deliveries(en.event, en.sinks[..i])
        invariant queue == old(queue) + Spawned(w, en.event, en.sinks[..i])
      {
        ghost var done := en.sinks[..i];
        assert en.sinks[..i + 1][..i] == done;
        ghost var reactions := Published(w, react(en.sinks[i], en.event));
        assert Spawned(w, en.event, en.sinks[..i + 1]) == Spawned(w, en.event, done) + reactions;
        assert Deliveries(en.event, en.sinks[..i + 1]) == Deliveries(en.event, done) + [Delivery(en.sinks[i], en.event)];
        Emit(en.sinks[i], en.event);
        ConcatAssoc(old(queue), Spawned(w, en.event, done), reactions);
        ConcatAssoc(old(emitted), Deliveries(en.event, done), [Delivery(en.sinks[i], en.event)]);
      }
      assert en.sinks[..|en.sinks|] == en.sinks;
    }

    /** `sink.tryEmitNext(event)`: the emission is recorded, and the channel's
        subscribers, called back synchronously, publish their reactions one
        after another; within a drain each of those only joins the queue. */
    method Emit(ch: ChannelId, e: Event)
      requires Valid() && dispatching
      modifies this
      ensures Valid() && dispatching && eventSinks == old(eventSinks)
      ensures emitted == old(emitted) + [Delivery(ch, e)]
      ensures queue == old(queue) + Published(W(), react(ch, e))
      decreases 1
    {
      emitted := emitted + [Delivery(ch, e)];
      var reactions := react(ch, e);
      ghost var w := W();
      for j := 0 to |reactions|
        invariant Valid() && dispatching && eventSinks == old(eventSinks)
        invariant emitted == old(emitted) + [Delivery(ch, e)]
        invariant queue == old(queue) + Published(w, reactions[..j])
      {
        PublishedNext(w, reactions, j, old(queue));
        Publish(reactions[j]);
      }
      assert reactions[..|reactions|] == reactions;
    }
  }
}
