/** The `eventSinks` map: one channel per listening key, created on first
    subscription (`forEventType`) and looked up, never created, at publish
    time (`getSinks`). Channels are numbered in creation order. */
module Registry {
  import opened TypeGraph
  import opened Resolver

  type ChannelId = nat

  type Sinks = map<TypeId, ChannelId>

  /** Distinct keys own distinct channels. */
  ghost predicate Injective(reg: Sinks) {
    forall a, b :: a in reg && b in reg && a != b ==> reg[a] != reg[b]
  }

  /** The channels of the map are the ones created so far, numbered from 0,
      so the next channel to be created is `|reg|`. */
  ghost predicate WellNumbered(reg: Sinks) {
    && Injective(reg)
    && forall k :: k in reg ==> reg[k] < |reg|
  }

  /** `eventSinks.computeIfAbsent(k, ...)`: the existing channel of `k`, or a
      new channel registered under `k`. Returns the new map and the channel. */
  function ComputeIfAbsent(reg: Sinks, k: TypeId): (Sinks, ChannelId) {
    if k in reg then (reg, reg[k]) else (reg[k := |reg|], |reg|)
  }

  /** The map gains the key `k` and nothing else, `k` maps to the returned
      channel, the other keys keep theirs, and a present key changes nothing. */
  lemma ComputeIfAbsentSpec(reg: Sinks, k: TypeId)
    ensures ComputeIfAbsent(reg, k).0.Keys == reg.Keys + {k}
    ensures k in ComputeIfAbsent(reg, k).0 && ComputeIfAbsent(reg, k).0[k] == ComputeIfAbsent(reg, k).1
    ensures forall x :: x in reg ==> x in ComputeIfAbsent(reg, k).0 && ComputeIfAbsent(reg, k).0[x] == reg[x]
    ensures k in reg ==> ComputeIfAbsent(reg, k) == (reg, reg[k])
  {
  }

  /** A second `computeIfAbsent` with the same key returns the same channel
      and leaves the map as the first call left it. */
  lemma ComputeIfAbsentIdempotent(reg: Sinks, k: TypeId)
    ensures var (m, c) := ComputeIfAbsent(reg, k); ComputeIfAbsent(m, k) == (m, c)
  {
  }

  /** Registering a key keeps the numbering: a new channel gets the next
      number, which no key held. */
  lemma ComputeIfAbsentNumbering(reg: Sinks, k: TypeId)
    requires WellNumbered(reg)
    ensures WellNumbered(ComputeIfAbsent(reg, k).0)
    ensures k !in reg ==> ComputeIfAbsent(reg, k).1 !in reg.Values
    ensures k !in reg ==> |ComputeIfAbsent(reg, k).0| == |reg| + 1
  {
    if k !in reg {
      var m := reg[k := |reg|];
      assert m.Keys == reg.Keys + {k};
      assert |m.Keys| == |reg.Keys| + 1;
    }
  }

  /** `.map(eventSinks::get).filter(Objects::nonNull)`: the channels of the
      keys that have one, in key order. */
  function Lookup(reg: Sinks, keys: seq<TypeId>): (r: seq<ChannelId>)
    ensures |r| <= |keys|
    ensures forall c :: c in r <==> exists k :: k in keys && k in reg && reg[k] == c
  {
    if keys == [] then []
    else
      var r := (if keys[0] in reg then [reg[keys[0]]] else []) + Lookup(reg, keys[1..]);
      assert forall k :: k in keys <==> k == keys[0] || k in keys[1..];
      r
  }

  /** The lookup keeps key order: looking up a concatenation is concatenating the lookups. */
  lemma {:induction false} LookupAppend(reg: Sinks, a: seq<TypeId>, b: seq<TypeId>)
    ensures Lookup(reg, a + b) == Lookup(reg, a) + Lookup(reg, b)
  {
    if a != [] {
      assert (a + b)[1..] == a[1..] + b;
      LookupAppend(reg, a[1..], b);
    } else {
      assert a + b == b;
    }
  }

  /** Distinct keys and an injective map give distinct channels. */
  lemma {:induction false} LookupNoDup(reg: Sinks, keys: seq<TypeId>)
    requires Injective(reg) && NoDup(keys)
    ensures NoDup(Lookup(reg, keys))
  {
    if keys != [] {
      var rest := keys[1..];
      assert NoDup(rest) by {
        forall i, j | 0 <= j < i < |rest|
          ensures rest[i] != rest[j]
        {
          assert rest[i] == keys[i + 1] && rest[j] == keys[j + 1];
        }
      }
      LookupNoDup(reg, rest);
      if keys[0] in reg {
        var tail := Lookup(reg, rest);
        assert reg[keys[0]] !in tail by {
          forall k | k in rest && k in reg
            ensures reg[k] != reg[keys[0]]
          {
            var i :| 0 <= i < |rest| && rest[i] == k;
            assert keys[i + 1] == k;
          }
        }
        var r := [reg[keys[0]]] + tail;
        forall i, j | 0 <= j < i < |r|
          ensures r[i] != r[j]
        {
          if j > 0 {
            assert r[i] == tail[i - 1] && r[j] == tail[j - 1];
          } else {
            assert r[i] in tail;
          }
        }
      }
    }
  }

  lemma LookupNoDupWhenInjective(reg: Sinks, keys: seq<TypeId>)
    requires NoDup(keys)
    ensures Injective(reg) ==> NoDup(Lookup(reg, keys))
  {
    if Injective(reg) {
      LookupNoDup(reg, keys);
    }
  }

  /** `getSinks(eventType)`: the channels registered under the listening keys
      of `ty`, in the resolver's order. */
  function GetSinks(g: Graph, reg: Sinks, ty: TypeId): seq<ChannelId>
    requires ValidGraph(g)
  {
    Lookup(reg, Collect(g, ty, []))
  }

  /** A channel is among the sinks of `ty` exactly when its key is `ty` or a
      supertype of it; with one channel per key, none appears twice. */
  lemma GetSinksSpec(g: Graph, reg: Sinks, ty: TypeId)
    requires ValidGraph(g)
    ensures forall c :: c in GetSinks(g, reg, ty) <==> exists k :: k in reg && reg[k] == c && Reaches(g, ty, k)
    ensures Injective(reg) ==> NoDup(GetSinks(g, reg, ty))
  {
    var keys := Collect(g, ty, []);
    ResolvedKeys(g, ty);
    LookupNoDupWhenInjective(reg, keys);
  }
}
