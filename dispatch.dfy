/** What one drain of the per-thread dispatch queue does, as functions: the
    queue of `EventDispatch` entries, the deliveries (`tryEmitNext` calls) an
    entry makes, the entries that subscriber reactions publish meanwhile, and
    the whole breadth-first trace of a drain. */
module Dispatch {
  import opened TypeGraph
  import opened Resolver
  import opened Registry

  /** An event: its concrete class and an opaque payload. */
  datatype Event = Event(ty: TypeId, data: string)

  /** `EventDispatch`: an event and the channels matched when it was published. */
  datatype Entry = Entry(event: Event, sinks: seq<ChannelId>)

  /** One `sink.tryEmitNext(event)`. */
  datatype Delivery = Delivery(channel: ChannelId, event: Event)

  /** The surroundings of a drain, fixed while it runs: the channels that
      `getSinks` finds for each event class, and for each channel and event
      what that channel's subscribers publish, in order, when the event
      reaches them. */
  datatype Wiring = Wiring(sinks: TypeId -> seq<ChannelId>, react: (ChannelId, Event) -> seq<Event>)

  /** The wiring of a bus whose hierarchy is `g` and whose map is `reg`. */
  function WiringOf(g: Graph, reg: Sinks, react: (ChannelId, Event) -> seq<Event>): (w: Wiring)
    requires ValidGraph(g)
    ensures forall ty :: w.sinks(ty) == GetSinks(g, reg, ty)
    ensures w.react == react
  {
    Wiring(ty => GetSinks(g, reg, ty), react)
  }

  function SinksOf(w: Wiring, e: Event): seq<ChannelId> {
    w.sinks(e.ty)
  }

  /** `dispatch()`: the event emitted to each sink of the list, in list order. */
  function Deliveries(e: Event, sinks: seq<ChannelId>): seq<Delivery> {
    if sinks == [] then []
    else Deliveries(e, sinks[..|sinks| - 1]) + [Delivery(sinks[|sinks| - 1], e)]
  }

  /** The entry that `publish(e)` offers to the queue: none when no channel matches. */
  function Offer(w: Wiring, e: Event): seq<Entry>
  {
    if |SinksOf(w, e)| > 0 then [Entry(e, SinksOf(w, e))] else []
  }

  /** The entries offered by publishing the events `es` one after another. */
  function Published(w: Wiring, es: seq<Event>): seq<Entry>
  {
    if es == [] then []
    else Published(w, es[..|es| - 1]) + Offer(w, es[|es| - 1])
  }

  /** The entries queued while `e` is dispatched to `sinks`: at each sink in
      turn, what that channel's subscribers publish. */
  function Spawned(w: Wiring, e: Event, sinks: seq<ChannelId>): seq<Entry>
  {
    if sinks == [] then []
    else Spawned(w, e, sinks[..|sinks| - 1]) + Published(w, w.react(sinks[|sinks| - 1], e))
  }

  /** Publishing one more event of `es` adds its offer behind the earlier ones. */
  lemma PublishedNext(w: Wiring, es: seq<Event>, j: nat, base: seq<Entry>)
    requires j < |es|
    ensures base + Published(w, es[..j + 1]) == (base + Published(w, es[..j])) + Offer(w, es[j])
  {
    assert es[..j + 1][..j] == es[..j];
    ConcatAssoc(base, Published(w, es[..j]), Offer(w, es[j]));
  }

  /** One iteration of the drain loop: poll the head entry, dispatch it; what
      it spawns joins the tail. */
  function Step(w: Wiring, q: seq<Entry>): seq<Entry>
    requires q != []
  {
    q[1..] + Spawned(w, q[0].event, q[0].sinks)
  }

  /** The queue after at most `n` iterations. */
  function Run(w: Wiring, q: seq<Entry>, n: nat): seq<Entry>
    decreases n
  {
    if n == 0 || q == [] then q else Run(w, Step(w, q), n - 1)
  }

  /** The deliveries of at most `n` iterations, in the order they happen. */
  function Trace(w: Wiring, q: seq<Entry>, n: nat): seq<Delivery>
    decreases n
  {
    if n == 0 || q == [] then [] else Deliveries(q[0].event, q[0].sinks) + Trace(w, Step(w, q), n - 1)
  }

  /** The drain of `q` ends: the cascade of reactions is finite. */
  ghost predicate Finite(w: Wiring, q: seq<Entry>)
  {
    exists n: nat :: Run(w, q, n) == []
  }

  /** Every delivery a drain of `q` makes, in order. */
  ghost function Drain(w: Wiring, q: seq<Entry>): seq<Delivery>
    requires Finite(w, q)
  {
    var n: nat :| Run(w, q, n) == [];
    Trace(w, q, n)
  }

  /** The deliveries of the entries of `q`, one entry after the other. */
  function Level(q: seq<Entry>): seq<Delivery> {
    if q == [] then [] else Deliveries(q[0].event, q[0].sinks) + Level(q[1..])
  }

  /** The entries the entries of `q` spawn, one entry after the other. */
  function SpawnedAll(w: Wiring, q: seq<Entry>): seq<Entry>
  {
    if q == [] then [] else Spawned(w, q[0].event, q[0].sinks) + SpawnedAll(w, q[1..])
  }

  /** The events delivered to channel `ch`: that channel's log. */
  function LogOf(ds: seq<Delivery>, ch: ChannelId): seq<Event> {
    if ds == [] then []
    else LogOf(ds[..|ds| - 1], ch) + (if ds[|ds| - 1].channel == ch then [ds[|ds| - 1].event] else [])
  }

  /** Once the queue is empty, more iterations change nothing: the trace of
      a finished drain does not depend on how much fuel is left. */
  lemma {:induction false} TraceSettles(w: Wiring, q: seq<Entry>, n: nat, m: nat)
    requires Run(w, q, n) == [] && n <= m
    ensures Run(w, q, m) == [] && Trace(w, q, m) == Trace(w, q, n)
    decreases n
  {
    if q != [] {
      assert n > 0;
      TraceSettles(w, Step(w, q), n - 1, m - 1);
    }
  }

  /** One iteration of the drain loop, on the fuel, the deliveries so far
      and the queue: the head entry's deliveries move from the trace still
      to come to the deliveries made. */
  lemma TraceStep(w: Wiring, q: seq<Entry>, n: nat, done: seq<Delivery>, next: seq<Entry>)
    requires q != [] && Run(w, q, n) == []
    requires next == q[1..] + Spawned(w, q[0].event, q[0].sinks)
    ensures n > 0 && Run(w, next, n - 1) == []
    ensures done + Trace(w, q, n) == (done + Deliveries(q[0].event, q[0].sinks)) + Trace(w, next, n - 1)
  {
    ConcatAssoc(done, Deliveries(q[0].event, q[0].sinks), Trace(w, next, n - 1));
  }

  /** Any fuel that empties the queue gives the drain's trace. */
  lemma DrainIsTrace(w: Wiring, q: seq<Entry>, n: nat)
    requires Run(w, q, n) == []
    ensures Finite(w, q) && Drain(w, q) == Trace(w, q, n)
  {
    var k: nat :| Run(w, q, k) == [] && Drain(w, q) == Trace(w, q, k);
    if k <= n {
      TraceSettles(w, q, k, n);
    } else {
      TraceSettles(w, q, n, k);
    }
  }

  /** Breadth-first order: everything already queued is delivered, entry by
      entry, before anything those entries spawn; the spawned entries then
      queue behind what was already waiting. */
  lemma {:induction false} BreadthFirst(w: Wiring, q: seq<Entry>, r: seq<Entry>, n: nat)
    requires Run(w, q + r, n) == []
    ensures |q| <= n
    ensures Run(w, r + SpawnedAll(w, q), n - |q|) == []
    ensures Trace(w, q + r, n) == Level(q) + Trace(w, r + SpawnedAll(w, q), n - |q|)
    decreases |q|
  {
    if q == [] {
      assert q + r == r && r + SpawnedAll(w, q) == r;
      assert Level(q) == [];
    } else {
      var head := q[0];
      var rest := q[1..];
      var sp := Spawned(w, head.event, head.sinks);
      var r' := r + sp;
      var later := r + SpawnedAll(w, q);
      assert (q + r)[0] == head;
      assert Step(w, q + r) == rest + r' by {
        assert (q + r)[1..] == rest + r;
        ConcatAssoc(rest, r, sp);
      }
      assert n > 0;
      assert Run(w, rest + r', n - 1) == [];
      BreadthFirst(w, rest, r', n - 1);
      assert SpawnedAll(w, q) == sp + SpawnedAll(w, rest);
      assert r' + SpawnedAll(w, rest) == later by {
        ConcatAssoc(r, sp, SpawnedAll(w, rest));
      }
      var tail := Trace(w, later, n - |q|);
      assert Trace(w, rest + r', n - 1) == Level(rest) + tail;
      assert Trace(w, q + r, n) == Deliveries(head.event, head.sinks) + (Level(rest) + tail);
      assert Level(q) == Deliveries(head.event, head.sinks) + Level(rest);
      ConcatAssoc(Deliveries(head.event, head.sinks), Level(rest), tail);
    }
  }

  /** The same on whole drains: draining `q + r` delivers every entry of `q`
      in queue order, then drains `r` followed by what `q` spawned. */
  lemma DrainBreadthFirst(w: Wiring, q: seq<Entry>, r: seq<Entry>)
    requires Finite(w, q + r)
    ensures Finite(w, r + SpawnedAll(w, q))
    ensures Drain(w, q + r) == Level(q) + Drain(w, r + SpawnedAll(w, q))
  {
    var n: nat :| Run(w, q + r, n) == [];
    BreadthFirst(w, q, r, n);
    DrainIsTrace(w, q + r, n);
    DrainIsTrace(w, r + SpawnedAll(w, q), n - |q|);
  }

  /** A reentrant publish is not dispatched recursively: the drain of one
      entry first delivers it to all of its channels, and only then what its
      subscribers published meanwhile. */
  lemma NestedAfterCurrent(w: Wiring, en: Entry)
    requires Finite(w, [en])
    ensures Finite(w, Spawned(w, en.event, en.sinks))
    ensures Drain(w, [en]) == Deliveries(en.event, en.sinks) + Drain(w, Spawned(w, en.event, en.sinks))
  {
    assert [en] + [] == [en];
    DrainBreadthFirst(w, [en], []);
    var sp := Spawned(w, en.event, en.sinks);
    assert SpawnedAll(w, [en]) == sp + SpawnedAll(w, []);
    assert [] + SpawnedAll(w, [en]) == sp;
    assert Level([en]) == Deliveries(en.event, en.sinks) + [];
  }

  lemma {:induction false} LogOfAppend(a: seq<Delivery>, b: seq<Delivery>, ch: ChannelId)
    ensures LogOf(a + b, ch) == LogOf(a, ch) + LogOf(b, ch)
    decreases |b|
  {
    if b == [] {
      assert a + b == a;
    } else {
      assert (a + b)[..|a + b| - 1] == a + b[..|b| - 1];
      LogOfAppend(a, b[..|b| - 1], ch);
      ConcatAssoc(LogOf(a, ch), LogOf(b[..|b| - 1], ch),
                  if b[|b| - 1].channel == ch then [b[|b| - 1].event] else []);
    }
  }

  /** Dispatching an entry appends its event exactly once to the log of each
      channel in its list, when the list has no repetition, and to no other log. */
  lemma {:induction false} DeliveriesLog(e: Event, sinks: seq<ChannelId>, ch: ChannelId)
    requires NoDup(sinks)
    ensures LogOf(Deliveries(e, sinks), ch) == if ch in sinks then [e] else []
    decreases |sinks|
  {
    if sinks != [] {
      var init := sinks[..|sinks| - 1];
      var last := sinks[|sinks| - 1];
      assert NoDup(init) by {
        forall i, j | 0 <= j < i < |init|
          ensures init[i] != init[j]
        {
          assert init[i] == sinks[i] && init[j] == sinks[j];
        }
      }
      assert last !in init by {
        forall i | 0 <= i < |init|
          ensures init[i] != last
        {
          assert init[i] == sinks[i];
        }
      }
      assert sinks == init + [last];
      DeliveriesLog(e, init, ch);
      var ds := Deliveries(e, sinks);
      assert ds[..|ds| - 1] == Deliveries(e, init);
    }
  }

  /** On its own channels, a published event comes first: the log of each
      channel the entry lists starts with the event, then holds what the drain
      of the spawned entries delivers there; a channel it does not list sees
      only the latter. */
  lemma EntryFirstOnEachChannel(w: Wiring, en: Entry, ch: ChannelId)
    requires Finite(w, [en]) && NoDup(en.sinks)
    ensures Finite(w, Spawned(w, en.event, en.sinks))
    ensures LogOf(Drain(w, [en]), ch)
         == (if ch in en.sinks then [en.event] else []) + LogOf(Drain(w, Spawned(w, en.event, en.sinks)), ch)
  {
    NestedAfterCurrent(w, en);
    LogOfAppend(Deliveries(en.event, en.sinks), Drain(w, Spawned(w, en.event, en.sinks)), ch);
    DeliveriesLog(en.event, en.sinks, ch);
  }

  /** Draining an empty queue delivers nothing. */
  lemma DrainEmpty(w: Wiring)
    ensures Finite(w, []) && Drain(w, []) == []
  {
    DrainIsTrace(w, [], 0);
  }
}
