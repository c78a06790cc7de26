/**
 Credential overwrites: the in-place, memoised expansion along `extends`, and
 the lookup that merges what it finds along the ancestors of a type.
 */
module CredentialsOverwrites {
  import opened Basics
  import opened CredentialTypes

  datatype Value = Null | Text(text: string) | Number(number: int) | Flag(flag: bool)

  type Fields = map<string, Value>
  type Overwrites = map<TypeName, Fields>

  function Lookup(data: Overwrites, t: TypeName): Option<Fields> {
    if t in data then Some(data[t]) else None
  }

  function All(fields: Option<Fields>): Fields {
    if fields.Some? then fields.value else map[]
  }

  /** `Object.assign(base, more)`, where an absent `more` adds nothing. */
  function Assign(base: Fields, more: Option<Fields>): Fields {
    base + All(more)
  }

  // ---- expansion ----

  datatype Resolution = Resolution(fields: Option<Fields>, resolved: seq<TypeName>)

  datatype Merge = Merge(fields: Fields, resolved: seq<TypeName>)

  /** `getOverwrites`: reads `data`, and may add to the resolved types. */
  function Resolve(g: Graph, data: Overwrites, resolved: seq<TypeName>, t: TypeName): Resolution
    requires Acyclic(g)
    decreases Height(g, t), 1
  {
    if t in resolved then Resolution(Lookup(data, t), resolved)
    else if t !in g then Resolution(None, resolved)
    else if g[t].None? then Resolution(Lookup(data, t), resolved + [t])
    else
      ParentsBelow(g, t);
      var merged := ResolveAll(g, data, resolved, Extends(g, t), Height(g, t));
      Resolution(Some(Assign(merged.fields, Lookup(data, t))), merged.resolved + [t])
  }

  /** The loop over the parents of a type: later parents win. */
  function ResolveAll(g: Graph, data: Overwrites, resolved: seq<TypeName>, parents: seq<TypeName>, ghost n: nat): Merge
    requires Acyclic(g) && Below(g, parents, n)
    decreases n, 0, |parents|
  {
    if parents == [] then Merge(map[], resolved)
    else
      var last := |parents| - 1;
      var before := ResolveAll(g, data, resolved, parents[..last], n);
      assert Height(g, parents[last]) < n;
      var one := Resolve(g, data, before.resolved, parents[last]);
      Merge(Assign(before.fields, one.fields), one.resolved)
  }

  /** One iteration of `setPlainData`: an empty result is not stored. */
  function Store(data: Overwrites, t: TypeName, fields: Option<Fields>): Overwrites {
    if fields.Some? && fields.value != map[] then data[t := fields.value] else data
  }

  /** `setPlainData` over the keys of the object, in the order in which they are enumerated. */
  function Expand(g: Graph, data: Overwrites, resolved: seq<TypeName>, keys: seq<TypeName>): Overwrites
    requires Acyclic(g)
    decreases |keys|
  {
    if keys == [] then data
    else
      var r := Resolve(g, data, resolved, keys[0]);
      Expand(g, Store(data, keys[0], r.fields), r.resolved, keys[1..])
  }

  // ---- lookup ----

  function Reverse<T>(s: seq<T>): seq<T> {
    if s == [] then [] else Reverse(s[1..]) + [s[0]]
  }

  /** The overwrites of the listed types that have any. */
  function Entries(data: Overwrites, types: seq<TypeName>): seq<Fields> {
    if types == [] then [] else (if types[0] in data then [data[types[0]]] else []) + Entries(data, types[1..])
  }

  /** `reduce` with `Object.assign`: later entries win. */
  function Reduce(acc: Fields, entries: seq<Fields>): Fields
    decreases |entries|
  {
    if entries == [] then acc else Reduce(acc + entries[0], entries[1..])
  }

  function Get(g: Graph, data: Overwrites, name: TypeName): Option<Fields>
    requires Acyclic(g)
  {
    var entries := Entries(data, Reverse([name] + ParentTypes(g, name)));
    if entries == [] then None else Some(Reduce(map[], entries))
  }

  // ---- what the lookup is for ----

  /**
   The fields a type inherits when neither it nor an ancestor has several parents:
   those of its parent, overridden by its own. `None` if neither it nor an ancestor has any.
   */
  function Inherited(g: Graph, raw: Overwrites, t: TypeName): Option<Fields>
    requires Acyclic(g)
    decreases Height(g, t)
  {
    ParentsBelow(g, t);
    var base := if Extends(g, t) == [] then None else Inherited(g, raw, Extends(g, t)[0]);
    if t in raw then Some(All(base) + raw[t]) else base
  }

  predicate Submap(a: Fields, b: Fields) {
    forall k :: k in a ==> k in b && b[k] == a[k]
  }

  /** `data` may have filled in some of what each straight type inherits, and has kept what that was given. */
  ghost predicate Sound(g: Graph, raw: Overwrites, data: Overwrites)
    requires Acyclic(g)
  {
    && data.Keys == raw.Keys
    && forall t :: t in raw && Straight(g, t) ==> Submap(raw[t], data[t]) && Submap(data[t], All(Inherited(g, raw, t)))
  }

  lemma RawIsSound(g: Graph, raw: Overwrites)
    requires Acyclic(g)
    ensures Sound(g, raw, raw)
  {
  }

  lemma {:induction false} ResolveIsSound(
      g: Graph, raw: Overwrites, data: Overwrites, resolved: seq<TypeName>, t: TypeName)
    requires Acyclic(g) && Straight(g, t) && Sound(g, raw, data)
    ensures var r := Resolve(g, data, resolved, t).fields;
      && Submap(All(r), All(Inherited(g, raw, t)))
      && (t in raw && r.Some? ==> Submap(raw[t], r.value))
    decreases Height(g, t)
  {
    if t !in resolved && t in g && g[t].Some? {
      ParentsBelow(g, t);
      if Extends(g, t) != [] {
        var x := Extends(g, t)[0];
        StraightParent(g, t);
        ResolveIsSound(g, raw, data, resolved, x);
        ResolveOne(g, data, resolved, x, Height(g, t));
      }
    }
  }

  lemma ResolveOne(g: Graph, data: Overwrites, resolved: seq<TypeName>, x: TypeName, n: nat)
    requires Acyclic(g) && Height(g, x) < n
    ensures ResolveAll(g, data, resolved, [x], n).fields == All(Resolve(g, data, resolved, x).fields)
  {
    assert [x][..0] == [];
    assert ResolveAll(g, data, resolved, [x][..0], n) == Merge(map[], resolved);
    assert map[] + All(Resolve(g, data, resolved, x).fields) == All(Resolve(g, data, resolved, x).fields);
  }

  lemma {:induction false} ExpandIsSound(
      g: Graph, raw: Overwrites, data: Overwrites, resolved: seq<TypeName>, keys: seq<TypeName>)
    requires Acyclic(g) && Sound(g, raw, data)
    requires forall t :: t in keys ==> t in raw
    ensures Sound(g, raw, Expand(g, data, resolved, keys))
    decreases |keys|
  {
    if keys != [] {
      if Straight(g, keys[0]) {
        ResolveIsSound(g, raw, data, resolved, keys[0]);
      }
      var r := Resolve(g, data, resolved, keys[0]);
      ExpandIsSound(g, raw, Store(data, keys[0], r.fields), r.resolved, keys[1..]);
    }
  }

  // ---- the lookup as a search ----

  /** The value of `k` at the first listed type that has one. */
  function First(data: Overwrites, types: seq<TypeName>, k: string): Option<Value> {
    if types == [] then None
    else if types[0] in data && k in data[types[0]] then Some(data[types[0]][k])
    else First(data, types[1..], k)
  }

  lemma {:induction false} ReduceSplits(acc: Fields, a: seq<Fields>, b: seq<Fields>)
    ensures Reduce(acc, a + b) == Reduce(Reduce(acc, a), b)
    decreases |a|
  {
    if a == [] {
      assert a + b == b;
    } else {
      assert (a + b)[1..] == a[1..] + b;
      ReduceSplits(acc + a[0], a[1..], b);
    }
  }

  lemma {:induction false} EntriesSplit(data: Overwrites, a: seq<TypeName>, b: seq<TypeName>)
    ensures Entries(data, a + b) == Entries(data, a) + Entries(data, b)
    decreases |a|
  {
    if a == [] {
      assert a + b == b;
    } else {
      assert (a + b)[1..] == a[1..] + b;
      EntriesSplit(data, a[1..], b);
    }
  }

  /** Reversing and letting later entries win finds the first listed type that has the key. */
  lemma {:induction false} ReduceFindsFirst(data: Overwrites, types: seq<TypeName>, k: string)
    ensures var merged := Reduce(map[], Entries(data, Reverse(types)));
      First(data, types, k) == if k in merged then Some(merged[k]) else None
    ensures Entries(data, Reverse(types)) == [] <==> forall t :: t in types ==> t !in data
    decreases |types|
  {
    if types != [] {
      var head := [types[0]];
      ReduceFindsFirst(data, types[1..], k);
      EntriesSplit(data, Reverse(types[1..]), head);
      ReduceSplits(map[], Entries(data, Reverse(types[1..])), Entries(data, head));
      assert Entries(data, head) == if types[0] in data then [data[types[0]]] else [];
      assert types == head + types[1..];
    }
  }

  lemma {:induction false} FirstInPrefix(data: Overwrites, a: seq<TypeName>, b: seq<TypeName>, k: string)
    requires forall t :: t in b ==> t in a
    ensures First(data, a + b, k) == First(data, a, k)
  {
    FirstSplits(data, a, b, k);
    if First(data, a, k).None? {
      FirstNone(data, a, k);
      FirstNone(data, b, k);
    }
  }

  lemma {:induction false} FirstSplits(data: Overwrites, a: seq<TypeName>, b: seq<TypeName>, k: string)
    ensures First(data, a + b, k) == if First(data, a, k).Some? then First(data, a, k) else First(data, b, k)
    decreases |a|
  {
    if a == [] {
      assert a + b == b;
    } else {
      assert (a + b)[1..] == a[1..] + b;
      FirstSplits(data, a[1..], b, k);
    }
  }

  lemma {:induction false} FirstNone(data: Overwrites, types: seq<TypeName>, k: string)
    ensures First(data, types, k).None? <==> forall t :: t in types && t in data ==> k !in data[t]
    decreases |types|
  {
    if types != [] {
      FirstNone(data, types[1..], k);
      assert types == [types[0]] + types[1..];
    }
  }

  /** Along the chain of a type the first value found is the inherited one, however far `data` is expanded. */
  lemma {:induction false} ChainFindsInherited(g: Graph, raw: Overwrites, data: Overwrites, t: TypeName, k: string)
    requires Acyclic(g) && Straight(g, t) && Sound(g, raw, data)
    ensures var all := All(Inherited(g, raw, t));
      First(data, [t] + Chain(g, t), k) == if k in all then Some(all[k]) else None
    decreases Height(g, t)
  {
    ParentsBelow(g, t);
    FirstSplits(data, [t], Chain(g, t), k);
    assert First(data, [t], k) == if t in data && k in data[t] then Some(data[t][k]) else None;
    if Extends(g, t) != [] {
      StraightParent(g, t);
      ChainFindsInherited(g, raw, data, Extends(g, t)[0], k);
    }
  }

  lemma {:induction false} ChainHasInherited(g: Graph, raw: Overwrites, t: TypeName)
    requires Acyclic(g)
    ensures Inherited(g, raw, t).None? <==> forall u :: u in [t] + Chain(g, t) ==> u !in raw
    decreases Height(g, t)
  {
    ParentsBelow(g, t);
    if Extends(g, t) != [] {
      ChainHasInherited(g, raw, Extends(g, t)[0]);
    }
  }

  /** The types the lookup goes through are the chain and repeats of it. */
  lemma LookupFindsInherited(g: Graph, raw: Overwrites, data: Overwrites, t: TypeName, k: string)
    requires Acyclic(g) && Straight(g, t) && Sound(g, raw, data)
    ensures var merged := Reduce(map[], Entries(data, Reverse([t] + ParentTypes(g, t))));
      var all := All(Inherited(g, raw, t));
      (k in merged <==> k in all) && (k in merged ==> merged[k] == all[k])
    ensures Inherited(g, raw, t).None? <==> Entries(data, Reverse([t] + ParentTypes(g, t))) == []
  {
    var types := [t] + ParentTypes(g, t);
    var chain := [t] + Chain(g, t);
    ChainComesFirst(g, t);
    var rest := ParentTypes(g, t)[|Chain(g, t)|..];
    assert types == chain + rest;
    ReduceFindsFirst(data, types, k);
    FirstInPrefix(data, chain, rest, k);
    ChainFindsInherited(g, raw, data, t, k);
    ChainHasInherited(g, raw, t);
    assert forall u :: u in types <==> u in chain;
  }

  lemma GetIsInherited(g: Graph, raw: Overwrites, data: Overwrites, t: TypeName)
    requires Acyclic(g) && Straight(g, t) && Sound(g, raw, data)
    ensures Get(g, data, t) == Inherited(g, raw, t)
  {
    var merged := Reduce(map[], Entries(data, Reverse([t] + ParentTypes(g, t))));
    forall k: string {
      LookupFindsInherited(g, raw, data, t, k);
    }
    LookupFindsInherited(g, raw, data, t, "");
    assert merged == All(Inherited(g, raw, t));
  }

  /** `keys` enumerates the keys of `raw`. */
  ghost predicate Enumerates(keys: seq<TypeName>, raw: Overwrites) {
    forall t :: t in keys <==> t in raw
  }

  /**
   After `setPlainData(raw)`, whatever order the keys come in, looking a type up
   gives the nearest-ancestor-wins merge of `raw` along its chain.
   */
  lemma LookupIsOrderIndependent(g: Graph, raw: Overwrites, keys: seq<TypeName>, t: TypeName)
    requires Acyclic(g) && Straight(g, t) && Enumerates(keys, raw)
    ensures Get(g, Expand(g, raw, [], keys), t) == Inherited(g, raw, t)
  {
    RawIsSound(g, raw);
    ExpandIsSound(g, raw, raw, [], keys);
    GetIsInherited(g, raw, Expand(g, raw, [], keys), t);
  }

  // ---- replication ----

  lemma {:induction false} ExpandedInheritsTheSame(g: Graph, raw: Overwrites, data: Overwrites, t: TypeName)
    requires Acyclic(g) && Straight(g, t) && Sound(g, raw, data)
    ensures Inherited(g, data, t) == Inherited(g, raw, t)
    decreases Height(g, t)
  {
    ParentsBelow(g, t);
    if Extends(g, t) != [] {
      StraightParent(g, t);
      ExpandedInheritsTheSame(g, raw, data, Extends(g, t)[0]);
    }
    if t in raw {
      var base := if Extends(g, t) == [] then None else Inherited(g, raw, Extends(g, t)[0]);
      OverridesAgree(All(base), raw[t], data[t]);
    }
  }

  lemma OverridesAgree(base: Fields, own: Fields, expanded: Fields)
    requires Submap(own, expanded) && Submap(expanded, base + own)
    ensures base + expanded == base + own
  {
  }

  /** An instance after each of a series of reloads: each stores what it got from the previous one, expanded. */
  function Reload(g: Graph, raw: Overwrites, orders: seq<seq<TypeName>>): Overwrites
    requires Acyclic(g)
  {
    if orders == [] then raw
    else Expand(g, Reload(g, raw, orders[..|orders| - 1]), [], orders[|orders| - 1])
  }

  /**
   Replication: what is stored is the already expanded object, yet an instance
   that loads it and expands it again, any number of times and in any key orders,
   answers every lookup as the first one does.
   */
  lemma {:induction false} ReplicasAgree(g: Graph, raw: Overwrites, orders: seq<seq<TypeName>>, t: TypeName)
    requires Acyclic(g) && Straight(g, t) && orders != []
    requires forall i :: 0 <= i < |orders| ==> Enumerates(orders[i], raw)
    ensures Reload(g, raw, orders).Keys == raw.Keys
    ensures Inherited(g, Reload(g, raw, orders), t) == Inherited(g, raw, t)
    ensures Get(g, Reload(g, raw, orders), t) == Inherited(g, raw, t)
    decreases |orders|
  {
    var last := |orders| - 1;
    var stored := Reload(g, raw, orders[..last]);
    if last > 0 {
      ReplicasAgree(g, raw, orders[..last], t);
    }
    assert Enumerates(orders[last], stored);
    RawIsSound(g, stored);
    ExpandIsSound(g, stored, stored, [], orders[last]);
    GetIsInherited(g, stored, Expand(g, stored, [], orders[last]), t);
    ExpandedInheritsTheSame(g, stored, Expand(g, stored, [], orders[last]), t);
  }

  // ---- what depends on the key order ----

  const CHAIN: Graph := map["a" := None, "b" := Some(["a"]), "c" := Some(["b"])]

  lemma ChainIsAcyclic()
    ensures Acyclic(CHAIN) && forall t :: Straight(CHAIN, t)
  {
    RankMakesAcyclic(CHAIN, map["a" := 0, "b" := 1, "c" := 2]);
    assert SingleParent(CHAIN);
    forall t
      ensures Straight(CHAIN, t)
    {
      SingleParentIsStraight(CHAIN, t);
    }
  }

  lemma ResolveRoot(g: Graph, data: Overwrites, resolved: seq<TypeName>, t: TypeName)
    requires Acyclic(g) && t in g && g[t].None? && t !in resolved
    ensures Resolve(g, data, resolved, t) == Resolution(Lookup(data, t), resolved + [t])
  {
  }

  lemma ResolveChild(g: Graph, data: Overwrites, resolved: seq<TypeName>, t: TypeName, x: TypeName)
    requires Acyclic(g) && t in g && g[t] == Some([x]) && t !in resolved
    ensures var r := Resolve(g, data, resolved, x);
      Resolve(g, data, resolved, t) == Resolution(Some(Assign(All(r.fields), Lookup(data, t))), r.resolved + [t])
  {
    ParentsBelow(g, t);
    assert Extends(g, t)[0] == x;
    ResolveOne(g, data, resolved, x, Height(g, t));
  }

  function OnChain(x: Value, y: Value, z: Value): Overwrites {
    map["a" := map["z" := z], "b" := map["x" := x], "c" := map["y" := y]]
  }

  lemma ResolveOnChain(raw: Overwrites)
    requires raw.Keys == {"a", "b", "c"} && Acyclic(CHAIN)
    ensures Resolve(CHAIN, raw, [], "b") == Resolution(Some(raw["a"] + raw["b"]), ["a", "b"])
    ensures Resolve(CHAIN, raw, [], "c").resolved == ["a", "b", "c"]
  {
    ResolveRoot(CHAIN, raw, [], "a");
    ResolveChild(CHAIN, raw, [], "b", "a");
    ResolveChild(CHAIN, raw, [], "c", "b");
  }

  /** A resolved type is never stored again. */
  lemma {:induction false} LaterKeysKeep(
      g: Graph, data: Overwrites, resolved: seq<TypeName>, keys: seq<TypeName>, t: TypeName)
    requires Acyclic(g) && t in resolved && t in data
    ensures t in Expand(g, data, resolved, keys) && Expand(g, data, resolved, keys)[t] == data[t]
    decreases |keys|
  {
    if keys != [] {
      var r := Resolve(g, data, resolved, keys[0]);
      ResolvedGrows(g, data, resolved, keys[0]);
      LaterKeysKeep(g, Store(data, keys[0], r.fields), r.resolved, keys[1..], t);
    }
  }

  lemma {:induction false} ResolvedGrows(g: Graph, data: Overwrites, resolved: seq<TypeName>, t: TypeName)
    requires Acyclic(g)
    ensures resolved <= Resolve(g, data, resolved, t).resolved
    decreases Height(g, t), 1
  {
    if t !in resolved && t in g && g[t].Some? {
      ParentsBelow(g, t);
      ResolvedGrowsAll(g, data, resolved, Extends(g, t), Height(g, t));
    }
  }

  lemma {:induction false} ResolvedGrowsAll(
      g: Graph, data: Overwrites, resolved: seq<TypeName>, parents: seq<TypeName>, n: nat)
    requires Acyclic(g) && Below(g, parents, n)
    ensures resolved <= ResolveAll(g, data, resolved, parents, n).resolved
    decreases n, 0, |parents|
  {
    if parents != [] {
      var last := |parents| - 1;
      ResolvedGrowsAll(g, data, resolved, parents[..last], n);
      assert Height(g, parents[last]) < n;
      ResolvedGrows(g, data, ResolveAll(g, data, resolved, parents[..last], n).resolved, parents[last]);
    }
  }

  /** A parent that is enumerated before its child is stored with what it inherits ... */
  lemma ParentFirst(raw: Overwrites, keys: seq<TypeName>)
    requires raw.Keys == {"a", "b", "c"} && Acyclic(CHAIN) && keys != [] && keys[0] == "b" && raw["b"] != map[]
    ensures "b" in Expand(CHAIN, raw, [], keys) && Expand(CHAIN, raw, [], keys)["b"] == raw["a"] + raw["b"]
  {
    ResolveOnChain(raw);
    var r := Resolve(CHAIN, raw, [], "b");
    assert forall k :: k in raw["b"] ==> k in r.fields.value;
    LaterKeysKeep(CHAIN, Store(raw, "b", r.fields), r.resolved, keys[1..], "b");
  }

  /** ... and one that was resolved on the way to its child is not. */
  lemma ChildFirst(raw: Overwrites, keys: seq<TypeName>)
    requires raw.Keys == {"a", "b", "c"} && Acyclic(CHAIN) && keys != [] && keys[0] == "c"
    ensures "b" in Expand(CHAIN, raw, [], keys) && Expand(CHAIN, raw, [], keys)["b"] == raw["b"]
  {
    ResolveOnChain(raw);
    var r := Resolve(CHAIN, raw, [], "c");
    LaterKeysKeep(CHAIN, Store(raw, "c", r.fields), r.resolved, keys[1..], "b");
  }

  lemma OrdersStoreDifferently(raw: Overwrites)
    requires raw.Keys == {"a", "b", "c"} && Acyclic(CHAIN)
    requires raw["b"] != map[] && "z" in raw["a"] && "z" !in raw["b"]
    ensures Expand(CHAIN, raw, [], ["b", "c", "a"]) != Expand(CHAIN, raw, [], ["c", "b", "a"])
  {
    ParentFirst(raw, ["b", "c", "a"]);
    ChildFirst(raw, ["c", "b", "a"]);
    assert "z" in raw["a"] + raw["b"];
  }

  lemma OrdersLookAlike(raw: Overwrites, t: TypeName)
    requires raw.Keys == {"a", "b", "c"} && Acyclic(CHAIN) && forall t :: Straight(CHAIN, t)
    ensures Get(CHAIN, Expand(CHAIN, raw, [], ["b", "c", "a"]), t) ==
      Get(CHAIN, Expand(CHAIN, raw, [], ["c", "b", "a"]), t)
  {
    LookupIsOrderIndependent(CHAIN, raw, ["b", "c", "a"], t);
    LookupIsOrderIndependent(CHAIN, raw, ["c", "b", "a"], t);
  }

  /** The expanded object depends on the key order, although no lookup does. */
  lemma StoredObjectDependsOnOrder(x: Value, y: Value, z: Value, t: TypeName)
    ensures Acyclic(CHAIN)
    ensures var raw := OnChain(x, y, z); var parentFirst, childFirst := ["b", "c", "a"], ["c", "b", "a"];
      && Expand(CHAIN, raw, [], parentFirst) != Expand(CHAIN, raw, [], childFirst)
      && Get(CHAIN, Expand(CHAIN, raw, [], parentFirst), t) == Get(CHAIN, Expand(CHAIN, raw, [], childFirst), t)
  {
    ChainIsAcyclic();
    var raw := OnChain(x, y, z);
    assert "x" in raw["b"];
    OrdersStoreDifferently(raw);
    OrdersLookAlike(raw, t);
  }
}
