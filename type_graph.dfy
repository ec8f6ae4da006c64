/** The Java type hierarchy that reflection exposes to the bus: for every type,
    whether it is a class or an interface, its superclass (`getSuperclass`)
    and its directly declared interfaces (`getInterfaces`, in declaration order). */
module TypeGraph {

  datatype Option<+T> = None | Some(value: T)

  type TypeId = nat

  datatype Kind = Class | Interface

  /** What reflection reports about one type. `level` is not reflected
      information: it witnesses that the hierarchy is acyclic, since every
      supertype sits on a strictly lower level. */
  datatype TypeDecl = TypeDecl(kind: Kind, superclass: Option<TypeId>, interfaces: seq<TypeId>, level: nat)

  /** Every type id names a type; the graph is static for the life of the process. */
  type Graph = TypeId -> TypeDecl

  /** Java's rules at one type: an interface has no superclass, a superclass is
      a class, the declared interfaces are interfaces, and every supertype is
      on a lower level. */
  ghost predicate WellFormedAt(g: Graph, t: TypeId) {
    var d := g(t);
    && (d.kind == Interface ==> d.superclass == None)
    && (d.superclass.Some? ==> g(d.superclass.value).kind == Class && g(d.superclass.value).level < d.level)
    && (forall k :: 0 <= k < |d.interfaces| ==>
          g(d.interfaces[k]).kind == Interface && g(d.interfaces[k]).level < d.level)
  }

  ghost predicate ValidGraph(g: Graph) {
    forall t :: WellFormedAt(g, t)
  }

  /** `u` is `t` itself or a supertype of `t`, reached through any number of
      superclass and interface edges: the reference definition of what the
      resolver must return. */
  ghost predicate Reaches(g: Graph, t: TypeId, u: TypeId)
    requires ValidGraph(g)
    decreases g(t).level
  {
    assert WellFormedAt(g, t);
    var d := g(t);
    || t == u
    || (exists k :: 0 <= k < |d.interfaces| && Reaches(g, d.interfaces[k], u))
    || (d.superclass.Some? && Reaches(g, d.superclass.value, u))
  }

  /** The superclass chain of `t`: `t`, its superclass, that one's superclass,
      up to the root. */
  function SuperChain(g: Graph, t: TypeId): seq<TypeId>
    requires ValidGraph(g)
    decreases g(t).level
  {
    assert WellFormedAt(g, t);
    match g(t).superclass
    case None => [t]
    case Some(s) => [t] + SuperChain(g, s)
  }

  /** The classes of `s`, in order: the interfaces filtered out. */
  function Classes(g: Graph, s: seq<TypeId>): seq<TypeId> {
    if s == [] then []
    else Classes(g, s[..|s| - 1]) + (if g(s[|s| - 1]).kind == Class then [s[|s| - 1]] else [])
  }

  ghost predicate NoDup<T>(s: seq<T>) {
    forall i, j :: 0 <= j < i < |s| ==> s[i] != s[j]
  }

  /** `b` is `a` followed by elements each of which differs from everything
      before it: what a sequence of insertions into an insertion-ordered set does. */
  ghost predicate Extends<T>(a: seq<T>, b: seq<T>) {
    && |a| <= |b|
    && b[..|a|] == a
    && forall i, j :: |a| <= i < |b| && 0 <= j < i ==> b[i] != b[j]
  }

  lemma ExtendsTrans<T>(a: seq<T>, b: seq<T>, c: seq<T>)
    requires Extends(a, b) && Extends(b, c)
    ensures Extends(a, c)
  {
    assert c[..|b|][..|a|] == c[..|a|];
    forall i, j | |a| <= i < |c| && 0 <= j < i
      ensures c[i] != c[j]
    {
      if i < |b| {
        assert c[i] == c[..|b|][i] && c[j] == c[..|b|][j];
      }
    }
  }

  lemma ExtendsNoDup<T>(a: seq<T>, b: seq<T>)
    requires NoDup(a) && Extends(a, b)
    ensures NoDup(b)
  {
    forall i, j | 0 <= j < i < |b|
      ensures b[i] != b[j]
    {
      if i < |a| {
        assert b[i] == b[..|a|][i] && b[j] == b[..|a|][j];
      }
    }
  }

  /** An element that `b` adds to `a` was not in `a`. */
  lemma ExtendsFresh<T>(a: seq<T>, b: seq<T>, i: nat)
    requires Extends(a, b) && |a| <= i < |b|
    ensures b[i] !in a
  {
    forall j | 0 <= j < |a|
      ensures a[j] != b[i]
    {
      assert a[j] == b[..|a|][j] == b[j];
    }
  }

  lemma ConcatAssoc<T>(a: seq<T>, b: seq<T>, c: seq<T>)
    ensures (a + b) + c == a + (b + c)
  {
  }

  lemma {:induction false} ClassesAppend(g: Graph, a: seq<TypeId>, b: seq<TypeId>)
    ensures Classes(g, a + b) == Classes(g, a) + Classes(g, b)
    decreases |b|
  {
    if b == [] {
      assert a + b == a;
    } else {
      assert (a + b)[..|a + b| - 1] == a + b[..|b| - 1];
      ClassesAppend(g, a, b[..|b| - 1]);
    }
  }

  /** Interfaces contribute nothing to `Classes`. */
  lemma {:induction false} ClassesOfInterfaces(g: Graph, s: seq<TypeId>)
    requires forall i :: 0 <= i < |s| ==> g(s[i]).kind == Interface
    ensures Classes(g, s) == []
    decreases |s|
  {
    if s != [] {
      ClassesOfInterfaces(g, s[..|s| - 1]);
    }
  }

  /** Everything above an interface is an interface: an interface has no
      superclass and extends interfaces only. */
  lemma {:induction false} InterfaceReachesInterfaces(g: Graph, t: TypeId, u: TypeId)
    requires ValidGraph(g) && g(t).kind == Interface && Reaches(g, t, u)
    ensures g(u).kind == Interface
    decreases g(t).level
  {
    assert WellFormedAt(g, t);
    var d := g(t);
    if t != u {
      var k :| 0 <= k < |d.interfaces| && Reaches(g, d.interfaces[k], u);
      InterfaceReachesInterfaces(g, d.interfaces[k], u);
    }
  }

  /** The superclass chain of a class holds classes only, no lower than it,
      and without repetition. */
  lemma {:induction false} SuperChainOfClass(g: Graph, t: TypeId)
    requires ValidGraph(g) && g(t).kind == Class
    ensures SuperChain(g, t)[0] == t
    ensures forall x :: x in SuperChain(g, t) ==> g(x).kind == Class && g(x).level <= g(t).level
    ensures forall x :: x in SuperChain(g, t) ==> Reaches(g, t, x)
    ensures NoDup(SuperChain(g, t))
    decreases g(t).level
  {
    assert WellFormedAt(g, t);
    match g(t).superclass
    case None =>
    case Some(s) =>
      SuperChainOfClass(g, s);
      var rest := SuperChain(g, s);
      assert SuperChain(g, t) == [t] + rest;
      assert t !in rest;
      forall i, j | 0 <= j < i < |SuperChain(g, t)|
        ensures SuperChain(g, t)[i] != SuperChain(g, t)[j]
      {
        if j > 0 {
          assert SuperChain(g, t)[i] == rest[i - 1] && SuperChain(g, t)[j] == rest[j - 1];
        } else {
          assert SuperChain(g, t)[i] == rest[i - 1];
        }
      }
  }
}
