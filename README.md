# ReactorBus, modelled in Dafny

`ReactorBus` is an in-process, typed publish/subscribe event bus. A
subscriber asks for the channel of an event class (`forEventType`). A
publisher hands the bus an event (`publish`). The bus then finds every
channel whose key is the event's class or one of its supertypes
(`getSinks`, built on `getAllSuperClassesAndInterfaces`) and emits the event
on each of them. A subscriber may publish again from inside its callback.
Such a reentrant publish is never dispatched recursively: it joins a
per-thread queue, and the outermost `publish` drains that queue breadth
first before it returns.

The model has six modules, one file each:

- `TypeGraph` (`type_graph.dfy`): the class hierarchy that reflection exposes.
  - Each type is a class or an interface, with an optional superclass and an ordered list of directly declared interfaces.
  - Java's rules hold: an interface has no superclass, a superclass is a class, and declared interfaces are interfaces.
  - A `level` on every type witnesses that the hierarchy is acyclic.
  - `Reaches` is the reference definition of "is the type itself or a supertype of it".
- `Resolver` (`resolver.dfy`): `getAllSuperClassesAndInterfaces`.
  - The traversal is defined as functions (`Collect`, `CollectEach`), with the `LinkedHashSet` modelled as a duplicate-free sequence.
  - `ResolveFrom` is the two-argument overload, written as the Java writes it: a `while` loop up the superclass chain, a `for` loop over the interfaces, and a recursive call. It is proved equal to the functions.
  - Lemmas prove what the resulting key list is.
- `Registry` (`registry.dfy`): the `eventSinks` map.
  - `computeIfAbsent` and the channel lookup of `getSinks`.
  - Channels are numbered 0, 1, … in creation order.
- `Dispatch` (`dispatch.dfy`): the meaning of a drain of the dispatch queue, as functions.
  - `Deliveries` is what `EventDispatch.dispatch` emits.
  - `Spawned` is what subscribers publish meanwhile.
  - `Step`, `Run` and `Trace` are the loop.
  - `Drain` is the whole run.
  - Lemmas cover breadth-first order and per-channel order.
- `Bus` (`bus.dfy`): the `ReactorBus` object as a class.
  - It holds the map, the queue, the `dispatching` flag and a record of every `tryEmitNext` call.
  - Its mutually recursive `Publish` / `Dispatch` / `Emit` methods are proved against the `Dispatch` functions.
- `Demo` (`demo.dfy`): the program's `main`.
  - Classes `A` and `B` extend `Event`; a `B` subscriber publishes three `A` events.
  - The run is proved to emit exactly the expected sequence.
  - A diamond of interfaces is added to exercise deduplication.

A subscriber callback is modelled by the `react` function of the bus. For a
channel and an event, it gives the events that the channel's subscribers
publish, in order, when the event is emitted there. Every emission is
recorded in `emitted`; the log of one channel is `LogOf(emitted, ch)`.

Where the prose description of the system and the code differ, the model
follows the code:

- The description calls the resolver depth-first. The code first inserts *all* direct interfaces of a class (`Collections.addAll`) and only then recurses into each. So for `class Both implements Left, Right` with `Left, Right extends Top`, the keys are `Both, Left, Right, Top, Object`, not `Both, Left, Top, Right, Object` (`Demo.DiamondKeys`).
- The description's expected output for the demo leaves out the `Event` subscriber receiving `B("n")` itself. The code's `getSinks(B)` returns both `B`'s channel and `Event`'s, and `Demo.Scenario` shows the delivery to `Event`'s channel.

## Model

| member | source | states |
|---|---|---|
| TypeGraph.SuperChainOfClass | ReactorBus.java:51-58 | following `getSuperclass` from a class gives only classes, starting with the class itself, all reached from it, never repeating |
| TypeGraph.InterfaceReachesInterfaces | ReactorBus.java:53-58 | everything above an interface is an interface (an interface's `getSuperclass` is null) |
| Resolver.InsertSpec | ReactorBus.java:52 | `classSet.add` keeps the earlier elements in place and appends the element only if it was absent |
| Resolver.AddAllSpec | ReactorBus.java:54 | `Collections.addAll` extends the set by exactly the interfaces it lacked, without repetition |
| Resolver.CollectStep | ReactorBus.java:51-58 | one turn of the `while` loop: insert the class, add its interfaces, recurse into each, then continue with the superclass |
| Resolver.ResolveFrom | ReactorBus.java:50-61 | the loop with its nested `for` and recursive call computes exactly the traversal `Collect` |
| Resolver.Resolve | ReactorBus.java:46-48 | the keys of a type start with the type, have no duplicates, are exactly the types it reaches, and list its classes in superclass-chain order |
| Resolver.ResolvedKeys | ReactorBus.java:46-61 | the same four properties, proved about the traversal from an empty set |
| Resolver.CollectExtends | ReactorBus.java:50-61 | the traversal only ever appends new, distinct types to the set it is given |
| Resolver.CollectStartsWith | ReactorBus.java:51-52 | a traversal from a type not yet in the set inserts that type first |
| Resolver.CollectMembers | ReactorBus.java:50-61 | after the traversal, a type is in the set iff it was there before or the start type reaches it |
| Resolver.CollectClasses | ReactorBus.java:51-58 | the classes that a traversal from a class adds are its superclass chain, in chain order |
| Resolver.CollectSaturated | ReactorBus.java:52-56 | diamonds: a traversal from a type whose supertypes are all collected already leaves the set unchanged |
| Registry.ComputeIfAbsentSpec | ReactorBus.java:33-34 | `computeIfAbsent` adds exactly the key, maps it to the returned channel, keeps every other key's channel, and changes nothing for a present key |
| Registry.ComputeIfAbsentIdempotent | ReactorBus.java:33-34 | a second `forEventType` on the same key returns the same channel and leaves the map unchanged |
| Registry.ComputeIfAbsentNumbering | ReactorBus.java:34 | a new channel takes the next number, which no key held, and the map stays one-channel-per-key |
| Registry.Lookup | ReactorBus.java:40-43 | `map(eventSinks::get).filter(nonNull)` yields a channel iff some key of the list is registered to it, and no more channels than keys |
| Registry.LookupAppend | ReactorBus.java:40-43 | the lookup keeps key order: looking up a concatenation concatenates the lookups |
| Registry.LookupNoDup | ReactorBus.java:40-43 | distinct keys in a one-channel-per-key map give distinct channels |
| Registry.GetSinksSpec | ReactorBus.java:39-44 | a channel is among the sinks of a class iff its key is that class or a supertype; with one channel per key, none appears twice |
| Dispatch.PublishedNext | ReactorBus.java:17-19 | publishing one more event puts its entry, if any, behind the earlier ones |
| Dispatch.TraceSettles | ReactorBus.java:23-26 | once the queue is empty the loop stops: more fuel changes neither the queue nor the trace |
| Dispatch.DrainIsTrace | ReactorBus.java:23-26 | any number of iterations that empties the queue gives the drain's deliveries |
| Dispatch.TraceStep | ReactorBus.java:22-25 | one iteration moves the head entry's deliveries from the trace still to come to the deliveries made |
| Dispatch.BreadthFirst | ReactorBus.java:19-26 | FIFO: every entry already queued is delivered, in queue order, before anything those entries spawn, which queues behind what was waiting |
| Dispatch.DrainBreadthFirst | ReactorBus.java:19-26 | the same for whole drains |
| Dispatch.NestedAfterCurrent | ReactorBus.java:19-26 | a reentrant publish is delivered only after the current entry has reached all of its channels |
| Dispatch.DeliveriesLog | ReactorBus.java:69-71 | `dispatch` appends its event exactly once to the log of each listed channel and to no other log |
| Dispatch.EntryFirstOnEachChannel | ReactorBus.java:19-26 | on each of its channels a published event is logged before anything its subscribers publish; other channels see only the latter |
| Dispatch.DrainEmpty | ReactorBus.java:23 | draining an empty queue delivers nothing |
| Bus.ReactorBus.constructor | ReactorBus.java:11-13 | a new bus has an empty map, an empty queue and a cleared flag |
| Bus.ReactorBus.ForEventType | ReactorBus.java:32-37 | the channel is the one `computeIfAbsent` gives; a first subscription gets the next, unused number; the numbering stays valid |
| Bus.ReactorBus.Poll | ReactorBus.java:22 | `queue.poll()` removes and returns the head, or returns nothing on an empty queue |
| Bus.ReactorBus.GetSinksOf | ReactorBus.java:39-44 | the resolver's keys mapped through the map are the sinks `GetSinks` specifies, and the map is untouched |
| Bus.ReactorBus.Publish | ReactorBus.java:15-30 | no matching channel: nothing changes; while dispatching: the entry only joins the queue tail; otherwise: the queue is drained to empty, the flag is cleared, and the emissions are exactly the breadth-first drain `Drain` |
| Bus.ReactorBus.DrainQueue | ReactorBus.java:20-28 | the `poll`/`dispatch` loop empties the queue and emits exactly `Drain` of the queue it started with |
| Bus.ReactorBus.Dispatch | ReactorBus.java:69-71 | the event is emitted on each listed sink in list order, and what the subscribers publish meanwhile is appended to the queue |
| Bus.ReactorBus.Emit | ReactorBus.java:70 | one `tryEmitNext`: the emission is recorded, and the subscribers' publishes each join the queue |
| Demo.DemoGraphValid | ReactorBus.java:95-105 | the demo hierarchy (`A`, `B` extend `Event`, plus an interface diamond) obeys Java's rules |
| Demo.EventClassKeys | ReactorBus.java:95-105 | the keys of `A` or `B` are the class itself, then `Event`, then `Object` |
| Demo.DiamondKeys | ReactorBus.java:50-61 | in a diamond the shared interface is listed once, after both direct interfaces, with `Object` last |
| Demo.EventClassSinks | ReactorBus.java:39-44 | after the demo's subscriptions, `A` and `B` each reach their own channel, then `Event`'s |
| Demo.DemoDrain | ReactorBus.java:92 | the demo's publish delivers `B` to `B`'s and `Event`'s channels, then each `A`, in order, to `A`'s and `Event`'s |
| Demo.Subscriptions | ReactorBus.java:79-90 | after the four subscriptions (`B`, `A`, `Event`, `Event` again) the map is `B`→0, `A`→1, `Event`→2: the repeated `Event` subscription adds no channel |
| Demo.Scenario | ReactorBus.java:77-92 | the whole demo emits exactly the expected eight deliveries, leaving the queue empty and the flag cleared |

## Left out

- Reactor's `Sinks.many().multicast().onBackpressureBuffer(1000)` internals are not modelled: the buffer, its capacity of 1000, overflow and the result of `tryEmitNext`. An emission is recorded and always reaches the channel's subscribers.
- Operators applied to a channel's flux by a subscriber (`filter`, `take(1)` in the demo) are not modelled. The demo's filtered `Event` subscriber is one more subscriber of channel 2 that publishes nothing.
- `ThreadLocal` and concurrency are not modelled. The model has one thread, so one queue and one flag. Concurrent use of the plain `HashMap` is not modelled either.
- Reflection (`getSuperclass`, `getInterfaces`) is replaced by an explicit type graph. Its `level` field is an acyclicity witness that Java guarantees and does not expose.
- Exceptions thrown by a subscriber during a drain are not modelled. In the Java code such an exception would leave `dispatching` set with entries still queued.
- Bus.ReactorBus.Publish: a top-level publish requires the cascade of reactions to be finite. The Java loop would never return on an infinite cascade; the model does not describe that case.
- Subscribing from inside a subscriber callback is not modelled: the reactions are events to publish, so the map is fixed during a drain.
- The `main` method's printing is not modelled. `Demo.Scenario` states what each channel receives, in order.
- `Event`, the events' payload classes and Lombok's generated members are not modelled. An event is its class plus a string payload.
