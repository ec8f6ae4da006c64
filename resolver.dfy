/** `getAllSuperClassesAndInterfaces`: the listening keys of an event class.
    The insertion-ordered set (`LinkedHashSet`) is a duplicate-free sequence
    threaded through the traversal. */
module Resolver {
  import opened TypeGraph

  /** `classSet.add(x)`: a present element leaves the set as it is, an absent
      one goes to the end. */
  function Insert(s: seq<TypeId>, x: TypeId): seq<TypeId> {
    if x in s then s else s + [x]
  }

  /** `Collections.addAll(classSet, interfaces)`: the elements inserted one by one, in array order. */
  function AddAll(s: seq<TypeId>, xs: seq<TypeId>): seq<TypeId>
    decreases |xs|
  {
    if xs == [] then s else AddAll(Insert(s, xs[0]), xs[1..])
  }

  /** An insertion extends the set by at most the new element, and only when
      it was absent. */
  lemma InsertSpec(s: seq<TypeId>, x: TypeId)
    ensures Extends(s, Insert(s, x))
    ensures forall y :: y in Insert(s, x) <==> y in s || y == x
    ensures x in s ==> Insert(s, x) == s
  {
  }

  /** `addAll` extends the set by exactly the elements of `xs` it lacked. */
  lemma {:induction false} AddAllSpec(s: seq<TypeId>, xs: seq<TypeId>)
    ensures Extends(s, AddAll(s, xs))
    ensures forall y :: y in AddAll(s, xs) <==> y in s || y in xs
    decreases |xs|
  {
    if xs != [] {
      var s' := Insert(s, xs[0]);
      InsertSpec(s, xs[0]);
      AddAllSpec(s', xs[1..]);
      ExtendsTrans(s, s', AddAll(s', xs[1..]));
      assert forall y :: y in xs <==> y == xs[0] || y in xs[1..];
    }
  }

  /** The traversal of one call `getAllSuperClassesAndInterfaces(t, acc)`:
      for `t` and then each of its superclasses, insert the class, insert its
      direct interfaces, and recurse into each of those interfaces. */
  function Collect(g: Graph, t: TypeId, acc: seq<TypeId>): seq<TypeId>
    requires ValidGraph(g)
    decreases g(t).level, 1, 0
  {
    assert WellFormedAt(g, t);
    var d := g(t);
    var expanded := CollectEach(g, d.interfaces, AddAll(Insert(acc, t), d.interfaces), d.level);
    match d.superclass
    case None => expanded
    case Some(s) => Collect(g, s, expanded)
  }

  /** The `for (var directInterface : interfaces)` loop: one recursive
      traversal per interface, in order. `bound` is a level above every interface. */
  function CollectEach(g: Graph, ifaces: seq<TypeId>, acc: seq<TypeId>, bound: nat): seq<TypeId>
    requires ValidGraph(g)
    requires forall k :: 0 <= k < |ifaces| ==> g(ifaces[k]).level < bound
    decreases bound, 0, |ifaces|
  {
    if ifaces == [] then acc
    else CollectEach(g, ifaces[1..], Collect(g, ifaces[0], acc), bound)
  }

  /** What is left to do once the interfaces of a class are done: climb to
      the superclass, or stop at the root. */
  function Continue(g: Graph, c: Option<TypeId>, acc: seq<TypeId>): seq<TypeId>
    requires ValidGraph(g)
  {
    match c
    case None => acc
    case Some(s) => Collect(g, s, acc)
  }

  /** One turn of the `while (clazz != null)` loop. */
  lemma CollectStep(g: Graph, t: TypeId, acc: seq<TypeId>)
    requires ValidGraph(g)
    ensures WellFormedAt(g, t)
    ensures Collect(g, t, acc)
         == Continue(g, g(t).superclass, CollectEach(g, g(t).interfaces, AddAll(Insert(acc, t), g(t).interfaces), g(t).level))
  {
    assert WellFormedAt(g, t);
  }

  /** The two-argument overload: the traversal written as Java writes it, a
      loop up the superclass chain with a recursive call per direct interface. */
  method ResolveFrom(g: Graph, clazz: TypeId, classSet: seq<TypeId>) returns (result: seq<TypeId>)
    requires ValidGraph(g)
    ensures result == Collect(g, clazz, classSet)
    decreases g(clazz).level
  {
    result := classSet;
    var c: Option<TypeId> := Some(clazz);
    while c.Some?
      invariant c.Some? ==> g(c.value).level <= g(clazz).level
      invariant Collect(g, clazz, classSet) == Continue(g, c, result)
      decreases if c.Some? then g(c.value).level + 1 else 0
    {
      var cur := c.value;
      CollectStep(g, cur, result);
      result := Insert(result, cur);
      var interfaces := g(cur).interfaces;
      result := AddAll(result, interfaces);
      ghost var expanded := CollectEach(g, interfaces, result, g(cur).level);
      for k := 0 to |interfaces|
        invariant expanded == CollectEach(g, interfaces[k..], result, g(cur).level)
      {
        assert interfaces[k..][1..] == interfaces[k + 1..];
        result := ResolveFrom(g, interfaces[k], result);
      }
      assert interfaces[|interfaces|..] == [];
      c := g(cur).superclass;
    }
  }

  /** The one-argument overload: the traversal from `clazz` into a fresh,
      empty insertion-ordered set. The keys start with `clazz`, hold no
      repetition, are exactly what `clazz` reaches, and list its classes in
      superclass-chain order. */
  method Resolve(g: Graph, clazz: TypeId) returns (keys: seq<TypeId>)
    requires ValidGraph(g)
    ensures keys == Collect(g, clazz, [])
    ensures |keys| > 0 && keys[0] == clazz
    ensures NoDup(keys)
    ensures forall u :: u in keys <==> Reaches(g, clazz, u)
    ensures g(clazz).kind == Class ==> Classes(g, keys) == SuperChain(g, clazz)
  {
    keys := ResolveFrom(g, clazz, []);
    ResolvedKeys(g, clazz);
  }

  /** The properties of the resolver's keys, about the traversal itself. */
  lemma ResolvedKeys(g: Graph, clazz: TypeId)
    requires ValidGraph(g)
    ensures |Collect(g, clazz, [])| > 0 && Collect(g, clazz, [])[0] == clazz
    ensures NoDup(Collect(g, clazz, []))
    ensures forall u :: u in Collect(g, clazz, []) <==> Reaches(g, clazz, u)
    ensures g(clazz).kind == Class ==> Classes(g, Collect(g, clazz, [])) == SuperChain(g, clazz)
  {
    var keys := Collect(g, clazz, []);
    CollectStartsWith(g, clazz, []);
    assert keys[..1] == [clazz];
    CollectExtends(g, clazz, []);
    ExtendsNoDup([], keys);
    CollectMembers(g, clazz, []);
    if g(clazz).kind == Class {
      CollectClasses(g, clazz, []);
      assert Classes(g, []) + SuperChain(g, clazz) == SuperChain(g, clazz);
    }
  }

  /** The traversal only inserts: what was collected before stays in place,
      and each added type is new. */
  lemma {:induction false} CollectExtends(g: Graph, t: TypeId, acc: seq<TypeId>)
    requires ValidGraph(g)
    ensures Extends(acc, Collect(g, t, acc))
    decreases g(t).level, 1, 0
  {
    assert WellFormedAt(g, t);
    var d := g(t);
    var a1 := AddAll(Insert(acc, t), d.interfaces);
    InsertSpec(acc, t);
    AddAllSpec(Insert(acc, t), d.interfaces);
    ExtendsTrans(acc, Insert(acc, t), a1);
    var a2 := CollectEach(g, d.interfaces, a1, d.level);
    CollectEachExtends(g, d.interfaces, a1, d.level);
    ExtendsTrans(acc, a1, a2);
    match d.superclass
    case None =>
    case Some(s) =>
      CollectExtends(g, s, a2);
      ExtendsTrans(acc, a2, Collect(g, s, a2));
  }

  lemma {:induction false} CollectEachExtends(g: Graph, ifaces: seq<TypeId>, acc: seq<TypeId>, bound: nat)
    requires ValidGraph(g)
    requires forall k :: 0 <= k < |ifaces| ==> g(ifaces[k]).level < bound
    ensures Extends(acc, CollectEach(g, ifaces, acc, bound))
    decreases bound, 0, |ifaces|
  {
    if ifaces != [] {
      var a1 := Collect(g, ifaces[0], acc);
      CollectExtends(g, ifaces[0], acc);
      CollectEachExtends(g, ifaces[1..], a1, bound);
      ExtendsTrans(acc, a1, CollectEach(g, ifaces[1..], a1, bound));
    } else {
      assert acc[..|acc|] == acc;
    }
  }

  /** A traversal from a type not yet collected inserts that type first. */
  lemma CollectStartsWith(g: Graph, t: TypeId, acc: seq<TypeId>)
    requires ValidGraph(g) && t !in acc
    ensures Extends(acc + [t], Collect(g, t, acc))
  {
    assert WellFormedAt(g, t);
    var d := g(t);
    var a1 := AddAll(acc + [t], d.interfaces);
    AddAllSpec(acc + [t], d.interfaces);
    var a2 := CollectEach(g, d.interfaces, a1, d.level);
    CollectEachExtends(g, d.interfaces, a1, d.level);
    ExtendsTrans(acc + [t], a1, a2);
    match d.superclass
    case None =>
    case Some(s) =>
      CollectExtends(g, s, a2);
      ExtendsTrans(acc + [t], a2, Collect(g, s, a2));
  }

  /** What the traversal adds is exactly what `t` reaches: every supertype,
      directly or transitively, and nothing else. */
  lemma {:induction false} CollectMembers(g: Graph, t: TypeId, acc: seq<TypeId>)
    requires ValidGraph(g)
    ensures forall u :: u in Collect(g, t, acc) <==> u in acc || Reaches(g, t, u)
    decreases g(t).level, 1, 0
  {
    assert WellFormedAt(g, t);
    var d := g(t);
    var a1 := AddAll(Insert(acc, t), d.interfaces);
    InsertSpec(acc, t);
    AddAllSpec(Insert(acc, t), d.interfaces);
    var a2 := CollectEach(g, d.interfaces, a1, d.level);
    CollectEachMembers(g, d.interfaces, a1, d.level);
    forall u
      ensures u in a2 <==> u in acc || t == u
                           || (exists k :: 0 <= k < |d.interfaces| && Reaches(g, d.interfaces[k], u))
    {
      if u in d.interfaces {
        var k :| 0 <= k < |d.interfaces| && d.interfaces[k] == u;
        assert Reaches(g, d.interfaces[k], u);
      }
    }
    match d.superclass
    case None =>
    case Some(s) =>
      CollectMembers(g, s, a2);
  }

  lemma {:induction false} CollectEachMembers(g: Graph, ifaces: seq<TypeId>, acc: seq<TypeId>, bound: nat)
    requires ValidGraph(g)
    requires forall k :: 0 <= k < |ifaces| ==> g(ifaces[k]).level < bound
    ensures forall u :: u in CollectEach(g, ifaces, acc, bound) <==>
                          u in acc || exists k :: 0 <= k < |ifaces| && Reaches(g, ifaces[k], u)
    decreases bound, 0, |ifaces|
  {
    if ifaces != [] {
      var a1 := Collect(g, ifaces[0], acc);
      CollectMembers(g, ifaces[0], acc);
      CollectEachMembers(g, ifaces[1..], a1, bound);
      forall u
        ensures (exists k :: 0 <= k < |ifaces| && Reaches(g, ifaces[k], u)) <==>
                Reaches(g, ifaces[0], u) || exists k :: 0 <= k < |ifaces[1..]| && Reaches(g, ifaces[1..][k], u)
      {
        if exists k :: 0 <= k < |ifaces| && Reaches(g, ifaces[k], u) {
          var k :| 0 <= k < |ifaces| && Reaches(g, ifaces[k], u);
          if k > 0 {
            assert ifaces[1..][k - 1] == ifaces[k];
          }
        }
        if exists k :: 0 <= k < |ifaces[1..]| && Reaches(g, ifaces[1..][k], u) {
          var k :| 0 <= k < |ifaces[1..]| && Reaches(g, ifaces[1..][k], u);
          assert ifaces[k + 1] == ifaces[1..][k];
        }
      }
    }
  }

  /** Types that an extension adds, when they are all interfaces, leave the
      classes of the set as they were. */
  lemma AddedInterfaces(g: Graph, a: seq<TypeId>, b: seq<TypeId>)
    requires Extends(a, b)
    requires forall y :: y in b && y !in a ==> g(y).kind == Interface
    ensures Classes(g, b) == Classes(g, a)
  {
    var tail := b[|a|..];
    assert b == a + tail;
    forall i | 0 <= i < |tail|
      ensures g(tail[i]).kind == Interface
    {
      ExtendsFresh(a, b, |a| + i);
    }
    ClassesOfInterfaces(g, tail);
    ClassesAppend(g, a, tail);
    assert a + [] == a;
  }

  /** Traversing from an interface inserts interfaces only. */
  lemma InterfaceCollectClasses(g: Graph, ifaces: seq<TypeId>, acc: seq<TypeId>, bound: nat)
    requires ValidGraph(g)
    requires forall k :: 0 <= k < |ifaces| ==> g(ifaces[k]).level < bound && g(ifaces[k]).kind == Interface
    ensures Classes(g, CollectEach(g, ifaces, acc, bound)) == Classes(g, acc)
    ensures forall y :: y in CollectEach(g, ifaces, acc, bound) && y !in acc ==> g(y).kind == Interface
  {
    var r := CollectEach(g, ifaces, acc, bound);
    CollectEachExtends(g, ifaces, acc, bound);
    CollectEachMembers(g, ifaces, acc, bound);
    forall y | y in r && y !in acc
      ensures g(y).kind == Interface
    {
      var k :| 0 <= k < |ifaces| && Reaches(g, ifaces[k], y);
      InterfaceReachesInterfaces(g, ifaces[k], y);
    }
    AddedInterfaces(g, acc, r);
  }

  /** The classes a traversal from a class inserts are its superclass chain,
      in chain order, provided none of them was collected before. */
  lemma {:induction false} CollectClasses(g: Graph, t: TypeId, acc: seq<TypeId>)
    requires ValidGraph(g) && g(t).kind == Class
    requires forall x :: x in SuperChain(g, t) ==> x !in acc
    ensures Classes(g, Collect(g, t, acc)) == Classes(g, acc) + SuperChain(g, t)
    decreases g(t).level, 1
  {
    var a2 := ExpandClass(g, t, acc);
    match g(t).superclass
    case None =>
      assert Collect(g, t, acc) == a2;
      assert SuperChain(g, t) == [t];
    case Some(s) =>
      var r := Collect(g, t, acc);
      assert r == Collect(g, s, a2);
      ChainStaysFresh(g, t, acc, a2);
      CollectClassesAbove(g, t, s, acc, a2);
      assert SuperChain(g, t) == [t] + SuperChain(g, s);
  }

  lemma {:induction false} CollectClassesAbove(g: Graph, t: TypeId, s: TypeId, acc: seq<TypeId>, a2: seq<TypeId>)
    requires ValidGraph(g) && g(t).kind == Class && g(t).superclass == Some(s)
    requires Classes(g, a2) == Classes(g, acc) + [t]
    requires forall x :: x in SuperChain(g, s) ==> x !in a2
    ensures Classes(g, Collect(g, s, a2)) == Classes(g, acc) + ([t] + SuperChain(g, s))
    decreases g(t).level, 0
  {
    assert WellFormedAt(g, t);
    var before := Classes(g, acc);
    var above := SuperChain(g, s);
    var after := Classes(g, Collect(g, s, a2));
    CollectClasses(g, s, a2);
    ConcatAssoc(before, [t], above);
  }

  /** The superclasses above `t` are still uncollected after the loop's
      iteration at `t`, which inserts `t` and interfaces only. */
  lemma ChainStaysFresh(g: Graph, t: TypeId, acc: seq<TypeId>, a2: seq<TypeId>)
    requires ValidGraph(g) && g(t).kind == Class && g(t).superclass.Some?
    requires forall x :: x in SuperChain(g, t) ==> x !in acc
    requires forall x :: x in a2 && g(x).kind == Class ==> x in acc || x == t
    ensures forall x :: x in SuperChain(g, g(t).superclass.value) ==> x !in a2
  {
    assert WellFormedAt(g, t);
    var s := g(t).superclass.value;
    SuperChainOfClass(g, s);
    assert SuperChain(g, t) == [t] + SuperChain(g, s);
    forall x | x in SuperChain(g, s)
      ensures x !in a2
    {
      assert x in SuperChain(g, t);
      assert g(x).kind == Class && g(x).level < g(t).level;
    }
  }

  /** One iteration of the loop at a class `t` not yet collected: `t` is
      inserted, and everything inserted after it is an interface. */
  lemma ExpandClass(g: Graph, t: TypeId, acc: seq<TypeId>) returns (a2: seq<TypeId>)
    requires ValidGraph(g) && g(t).kind == Class
    requires forall x :: x in SuperChain(g, t) ==> x !in acc
    ensures WellFormedAt(g, t)
    ensures a2 == CollectEach(g, g(t).interfaces, AddAll(Insert(acc, t), g(t).interfaces), g(t).level)
    ensures Classes(g, a2) == Classes(g, acc) + [t]
    ensures forall x :: x in a2 && g(x).kind == Class ==> x in acc || x == t
  {
    assert WellFormedAt(g, t);
    assert t in SuperChain(g, t);
    var d := g(t);
    var a0 := acc + [t];
    ClassesAppend(g, acc, [t]);
    assert Classes(g, [t]) == [t];
    var a1 := AddAll(a0, d.interfaces);
    AddAllSpec(a0, d.interfaces);
    forall y | y in a1 && y !in a0
      ensures g(y).kind == Interface
    {
      var k :| 0 <= k < |d.interfaces| && d.interfaces[k] == y;
    }
    AddedInterfaces(g, a0, a1);
    a2 := CollectEach(g, d.interfaces, a1, d.level);
    InterfaceCollectClasses(g, d.interfaces, a1, d.level);
  }

  /** The diamond case: a traversal from a type whose supertypes are all
      collected already leaves the set unchanged. */
  lemma CollectSaturated(g: Graph, t: TypeId, acc: seq<TypeId>)
    requires ValidGraph(g)
    requires forall u :: Reaches(g, t, u) ==> u in acc
    ensures Collect(g, t, acc) == acc
  {
    var r := Collect(g, t, acc);
    CollectExtends(g, t, acc);
    CollectMembers(g, t, acc);
    if |r| > |acc| {
      ExtendsFresh(acc, r, |acc|);
      assert false;
    }
  }
}
