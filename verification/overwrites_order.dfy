/**
 Several parents per type: the expansion lets the last parent win and the lookup
 the first, so the order in which the keys are enumerated can show.
 */
module OverwritesOrder {
  import opened Basics
  import opened CredentialTypes
  import opened CredentialsOverwrites

  /** The last parent that is a recognised type. */
  function LastKnown(g: Graph, parents: seq<TypeName>): Option<TypeName> {
    if parents == [] then None
    else if parents[|parents| - 1] in g then Some(parents[|parents| - 1])
    else LastKnown(g, parents[..|parents| - 1])
  }

  predicate AllKnown(g: Graph, types: seq<TypeName>) {
    forall i :: 0 <= i < |types| ==> types[i] in g
  }

  lemma {:induction false} ResolvedKnown(g: Graph, data: Overwrites, resolved: seq<TypeName>, t: TypeName)
    requires Acyclic(g) && AllKnown(g, resolved)
    ensures AllKnown(g, Resolve(g, data, resolved, t).resolved)
    decreases Height(g, t), 1
  {
    if t !in resolved && t in g && g[t].Some? {
      ParentsBelow(g, t);
      ResolvedKnownAll(g, data, resolved, Extends(g, t), Height(g, t));
    }
  }

  lemma {:induction false} ResolvedKnownAll(
      g: Graph, data: Overwrites, resolved: seq<TypeName>, parents: seq<TypeName>, n: nat)
    requires Acyclic(g) && Below(g, parents, n) && AllKnown(g, resolved)
    ensures AllKnown(g, ResolveAll(g, data, resolved, parents, n).resolved)
    decreases n, 0, |parents|
  {
    if parents != [] {
      var last := |parents| - 1;
      ResolvedKnownAll(g, data, resolved, parents[..last], n);
      assert Height(g, parents[last]) < n;
      ResolvedKnown(g, data, ResolveAll(g, data, resolved, parents[..last], n).resolved, parents[last]);
    }
  }

  /** A recognised type's own field is in what it resolves to, memoised or not. */
  lemma OwnWins(g: Graph, data: Overwrites, resolved: seq<TypeName>, t: TypeName, k: string)
    requires Acyclic(g) && t in g && t in data && k in data[t]
    ensures var r := Resolve(g, data, resolved, t).fields; r.Some? && k in r.value && r.value[k] == data[t][k]
  {
  }

  lemma {:induction false} LastKnownWins(
      g: Graph, data: Overwrites, resolved: seq<TypeName>, parents: seq<TypeName>, n: nat, b: TypeName, k: string)
    requires Acyclic(g) && Below(g, parents, n) && AllKnown(g, resolved)
    requires LastKnown(g, parents) == Some(b) && b in data && k in data[b]
    ensures var r := ResolveAll(g, data, resolved, parents, n).fields; k in r && r[k] == data[b][k]
    decreases |parents|
  {
    var last := |parents| - 1;
    assert Height(g, parents[last]) < n;
    if parents[last] == b && b in g {
      OwnWins(g, data, ResolveAll(g, data, resolved, parents[..last], n).resolved, b, k);
    } else {
      LastKnownWins(g, data, resolved, parents[..last], n, b, k);
      ResolvedKnownAll(g, data, resolved, parents[..last], n);
    }
  }

  lemma ResolveResolves(g: Graph, data: Overwrites, resolved: seq<TypeName>, t: TypeName)
    requires Acyclic(g) && t in g
    ensures t in Resolve(g, data, resolved, t).resolved
  {
  }

  /** Resolving a type marks all its recognised parents as resolved. */
  lemma {:induction false} ParentIsResolved(
      g: Graph, data: Overwrites, resolved: seq<TypeName>, parents: seq<TypeName>, n: nat, x: TypeName)
    requires Acyclic(g) && Below(g, parents, n) && x in parents && x in g
    ensures x in ResolveAll(g, data, resolved, parents, n).resolved
    decreases |parents|
  {
    var last := |parents| - 1;
    var before := ResolveAll(g, data, resolved, parents[..last], n);
    assert Height(g, parents[last]) < n;
    if parents[last] == x {
      ResolveResolves(g, data, before.resolved, x);
    } else {
      ParentIsResolved(g, data, resolved, parents[..last], n, x);
      ResolvedGrows(g, data, before.resolved, parents[last]);
    }
  }

  /** With a type, all its recognised parents are resolved. */
  predicate Closed(g: Graph, resolved: seq<TypeName>) {
    forall x, u :: x in resolved && u in Extends(g, x) && u in g ==> u in resolved
  }

  lemma {:induction false} ResolvedClosed(g: Graph, data: Overwrites, resolved: seq<TypeName>, t: TypeName)
    requires Acyclic(g) && Closed(g, resolved)
    ensures Closed(g, Resolve(g, data, resolved, t).resolved)
    decreases Height(g, t), 1
  {
    if t !in resolved && t in g && g[t].Some? {
      ParentsBelow(g, t);
      var n := Height(g, t);
      ResolvedClosedAll(g, data, resolved, Extends(g, t), n);
      forall u | u in Extends(g, t) && u in g
        ensures u in ResolveAll(g, data, resolved, Extends(g, t), n).resolved
      {
        ParentIsResolved(g, data, resolved, Extends(g, t), n, u);
      }
    }
  }

  lemma {:induction false} ResolvedClosedAll(
      g: Graph, data: Overwrites, resolved: seq<TypeName>, parents: seq<TypeName>, n: nat)
    requires Acyclic(g) && Below(g, parents, n) && Closed(g, resolved)
    ensures Closed(g, ResolveAll(g, data, resolved, parents, n).resolved)
    decreases n, 0, |parents|
  {
    if parents != [] {
      var last := |parents| - 1;
      ResolvedClosedAll(g, data, resolved, parents[..last], n);
      assert Height(g, parents[last]) < n;
      ResolvedClosed(g, data, ResolveAll(g, data, resolved, parents[..last], n).resolved, parents[last]);
    }
  }

  lemma {:induction false} ClosedHasAncestors(g: Graph, resolved: seq<TypeName>, t: TypeName, u: TypeName)
    requires Acyclic(g) && Closed(g, resolved) && t in resolved && Reaches(g, t, u) && u in g
    ensures u in resolved
    decreases Height(g, t)
  {
    var x := ReachesThrough(g, t, u);
    if x != u {
      var y := ReachesThrough(g, x, u);
      ReachesParent(g, t, x);
      AncestorIsLower(g, t, x);
      ClosedHasAncestors(g, resolved, x, u);
    }
  }

  /** Resolving a type first marks all its recognised ancestors as resolved. */
  lemma AncestorIsResolved(g: Graph, data: Overwrites, d: TypeName, c: TypeName)
    requires Acyclic(g) && d in g && c in g && Reaches(g, d, c)
    ensures c in Resolve(g, data, [], d).resolved
  {
    ResolvedClosed(g, data, [], d);
    ResolveResolves(g, data, [], d);
    ClosedHasAncestors(g, Resolve(g, data, [], d).resolved, d, c);
  }

  /** Whatever is expanded, a type's own fields stay. */
  lemma {:induction false} OwnStays(
      g: Graph, data: Overwrites, resolved: seq<TypeName>, keys: seq<TypeName>, t: TypeName, k: string)
    requires Acyclic(g) && t in data && k in data[t]
    ensures var r := Expand(g, data, resolved, keys); t in r && k in r[t] && r[t][k] == data[t][k]
    decreases |keys|
  {
    if keys != [] {
      var r := Resolve(g, data, resolved, keys[0]);
      if keys[0] == t && t in g {
        OwnWins(g, data, resolved, t, k);
      }
      OwnStays(g, Store(data, keys[0], r.fields), r.resolved, keys[1..], t, k);
    }
  }

  /** The lookup of `c` finds its own value of `k`, or else that of its first parent. */
  lemma OwnOrFirst(g: Graph, data: Overwrites, c: TypeName, k: string)
    requires Acyclic(g) && c in data && Extends(g, c) != []
    requires var a := Extends(g, c)[0]; a in data && k in data[a]
    ensures var r := Get(g, data, c);
      && r.Some? && k in r.value
      && r.value[k] == if k in data[c] then data[c][k] else data[Extends(g, c)[0]][k]
  {
    ParentsBelow(g, c);
    GenerationComesFirst(g, Extends(g, c), Height(g, c));
    var types := [c] + ParentTypes(g, c);
    assert types[0] == c && types[1..] == ParentTypes(g, c) && ParentTypes(g, c)[0] == Extends(g, c)[0];
    ReduceFindsFirst(data, types, k);
  }

  /** Enumerated first, `c` is stored with the last recognised parent's value, which its lookup then finds. */
  lemma LastParentWins(g: Graph, raw: Overwrites, keys: seq<TypeName>, c: TypeName, b: TypeName, k: string)
    requires Acyclic(g) && c in g && Extends(g, c) != [] && LastKnown(g, Extends(g, c)) == Some(b)
    requires keys != [] && keys[0] == c && c in raw && b in raw && k in raw[b] && k !in raw[c]
    requires Extends(g, c)[0] in raw && k in raw[Extends(g, c)[0]]
    ensures var r := Get(g, Expand(g, raw, [], keys), c); r.Some? && k in r.value && r.value[k] == raw[b][k]
  {
    ParentsBelow(g, c);
    LastKnownWins(g, raw, [], Extends(g, c), Height(g, c), b, k);
    var r := Resolve(g, raw, [], c);
    var stored := Store(raw, c, r.fields);
    assert k in stored[c] && stored[c][k] == raw[b][k];
    assert c != Extends(g, c)[0] by { ReachesParent(g, c, Extends(g, c)[0]); }
    OwnStays(g, stored, r.resolved, keys[1..], c, k);
    OwnStays(g, stored, r.resolved, keys[1..], Extends(g, c)[0], k);
    OwnOrFirst(g, Expand(g, raw, [], keys), c, k);
  }

  /** Enumerated after a type below it, `c` is not stored, and its lookup finds the first parent's value. */
  lemma FirstParentWins(g: Graph, raw: Overwrites, keys: seq<TypeName>, c: TypeName, d: TypeName, k: string)
    requires Acyclic(g) && c in g && d in g && Reaches(g, d, c) && Extends(g, c) != []
    requires keys != [] && keys[0] == d && c in raw && d in raw && k !in raw[c]
    requires Extends(g, c)[0] in raw && k in raw[Extends(g, c)[0]]
    ensures var r := Get(g, Expand(g, raw, [], keys), c);
      r.Some? && k in r.value && r.value[k] == raw[Extends(g, c)[0]][k]
  {
    AncestorIsResolved(g, raw, d, c);
    var r, a := Resolve(g, raw, [], d), Extends(g, c)[0];
    var stored := Store(raw, d, r.fields);
    ReachesParent(g, c, a);
    ReachesTransitive(g, d, c, a);
    assert c in r.resolved && d != c && d != a;
    LaterKeysKeep(g, stored, r.resolved, keys[1..], c);
    OwnStays(g, stored, r.resolved, keys[1..], a, k);
    OwnOrFirst(g, Expand(g, raw, [], keys), c, k);
  }

  /** `d` is below `c`, and the first parent of `c` is not its last recognised one. */
  ghost predicate Torn(g: Graph, c: TypeName, d: TypeName) {
    && c in g && d in g && Reaches(g, d, c) && Extends(g, c) != []
    && LastKnown(g, Extends(g, c)).Some? && LastKnown(g, Extends(g, c)) != Some(Extends(g, c)[0])
  }

  /** Overwrites that set a field differently for these two parents, but not for the type itself. */
  ghost predicate Tears(g: Graph, raw: Overwrites, c: TypeName, d: TypeName, k: string)
    requires Torn(g, c, d)
  {
    var a, b := Extends(g, c)[0], LastKnown(g, Extends(g, c)).value;
    c in raw && d in raw && a in raw && b in raw && k in raw[a] && k in raw[b] && raw[a][k] != raw[b][k] && k !in raw[c]
  }

  /**
   For every acyclic graph with such a type and all such overwrites, the
   guarantee is lost: the expansion lets the last parent win and the lookup the
   first, so whether the type or one below it is enumerated first shows in the lookup.
   */
  lemma TornTypeShowsTheOrder(
      g: Graph, raw: Overwrites, c: TypeName, d: TypeName, k: string, first: seq<TypeName>, second: seq<TypeName>)
    requires Acyclic(g) && Torn(g, c, d) && Tears(g, raw, c, d, k)
    requires Enumerates(first, raw) && Enumerates(second, raw) && first[0] == c && second[0] == d
    ensures Get(g, Expand(g, raw, [], first), c) != Get(g, Expand(g, raw, [], second), c)
  {
    LastParentWins(g, raw, first, c, LastKnown(g, Extends(g, c)).value, k);
    FirstParentWins(g, raw, second, c, d, k);
  }

  predicate NoRepeats(types: seq<TypeName>) {
    forall i, j :: 0 <= i < j < |types| ==> types[i] != types[j]
  }

  lemma {:induction false} LastKnownAt(g: Graph, parents: seq<TypeName>, i: nat) returns (j: nat)
    requires i < |parents| && parents[i] in g
    ensures i <= j < |parents| && LastKnown(g, parents) == Some(parents[j])
    decreases |parents|
  {
    j := |parents| - 1;
    if parents[j] !in g {
      j := LastKnownAt(g, parents[..j], i);
    }
  }

  /**
   In particular: if a recognised type has a recognised type below it and two
   recognised parents, listed once each, there are overwrites and two key
   orders for which its lookups differ.
   */
  lemma SeveralParentsShowTheOrder(g: Graph, c: TypeName, d: TypeName, p: TypeName, q: TypeName)
    returns (raw: Overwrites, first: seq<TypeName>, second: seq<TypeName>)
    requires Acyclic(g) && c in g && d in g && Reaches(g, d, c) && NoRepeats(Extends(g, c))
    requires p in Extends(g, c) && q in Extends(g, c) && p in g && q in g && p != q
    ensures Enumerates(first, raw) && Enumerates(second, raw)
    ensures Get(g, Expand(g, raw, [], first), c) != Get(g, Expand(g, raw, [], second), c)
  {
    var parents := Extends(g, c);
    var i: nat :| i < |parents| && parents[i] == p;
    var j: nat :| j < |parents| && parents[j] == q;
    var l := LastKnownAt(g, parents, if i < j then j else i);
    var a, b := parents[0], parents[l];
    assert a != b;
    ReachesParent(g, c, a);
    ReachesParent(g, c, b);
    ReachesTransitive(g, d, c, a);
    ReachesTransitive(g, d, c, b);
    raw := map[c := map[], d := map[], a := map["k" := Number(0)], b := map["k" := Number(1)]];
    first, second := [c, d, a, b], [d, c, a, b];
    assert raw.Keys == {c, d, a, b};
    TornTypeShowsTheOrder(g, raw, c, d, "k", first, second);
  }

  // ---- exactly when the order shows ----

  /** Every listed parent of `t` is recognised, and none is listed twice. */
  predicate ListsKnownOnce(g: Graph, t: TypeName) {
    AllKnown(g, Extends(g, t)) && NoRepeats(Extends(g, t))
  }

  predicate WellFormed(g: Graph) {
    forall t {:trigger ListsKnownOnce(g, t)} :: t in g ==> ListsKnownOnce(g, t)
  }

  /** For some overwrites, two orders of their keys lead to different lookups of `c`. */
  ghost predicate OrderShows(g: Graph, c: TypeName)
    requires Acyclic(g)
  {
    exists raw, first, second :: Enumerates(first, raw) && Enumerates(second, raw) &&
      Get(g, Expand(g, raw, [], first), c) != Get(g, Expand(g, raw, [], second), c)
  }

  /** The nearest type, from `c` upwards, that does not have exactly one parent. */
  ghost function Nearest(g: Graph, c: TypeName): TypeName
    requires Acyclic(g)
    decreases Height(g, c)
  {
    if |Extends(g, c)| != 1 then c
    else
      ParentsBelow(g, c);
      Nearest(g, Extends(g, c)[0])
  }

  lemma {:induction false} NearestIsAbove(g: Graph, c: TypeName)
    requires Acyclic(g)
    ensures Nearest(g, c) == c || Reaches(g, c, Nearest(g, c))
    decreases Height(g, c)
  {
    if |Extends(g, c)| == 1 {
      var x := Extends(g, c)[0];
      ParentsBelow(g, c);
      ReachesParent(g, c, x);
      NearestIsAbove(g, x);
      if Nearest(g, x) != x {
        ReachesTransitive(g, c, x, Nearest(g, x));
      }
    }
  }

  lemma StraightThrough(g: Graph, c: TypeName, x: TypeName)
    requires Extends(g, c) == [x] && Straight(g, x)
    ensures Straight(g, c)
  {
    forall u | Reaches(g, c, u)
      ensures |Extends(g, u)| <= 1
    {
      var y := ReachesThrough(g, c, u);
    }
  }

  lemma RootIsStraight(g: Graph, c: TypeName)
    requires Extends(g, c) == []
    ensures Straight(g, c)
  {
    forall u | Reaches(g, c, u)
      ensures false
    {
      var y := ReachesThrough(g, c, u);
    }
  }

  /** A type that is not straight leads through only parents to one with several. */
  lemma {:induction false} NearestHasSeveral(g: Graph, c: TypeName)
    requires Acyclic(g) && !Straight(g, c)
    ensures |Extends(g, Nearest(g, c))| > 1
    decreases Height(g, c)
  {
    if Extends(g, c) == [] {
      RootIsStraight(g, c);
    } else if |Extends(g, c)| == 1 {
      var x := Extends(g, c)[0];
      assert Extends(g, c) == [x];
      if Straight(g, x) {
        StraightThrough(g, c, x);
      }
      ParentsBelow(g, c);
      NearestHasSeveral(g, x);
    }
  }

  lemma GetFinds(g: Graph, data: Overwrites, c: TypeName, k: string)
    requires Acyclic(g)
    ensures var found, r := First(data, [c] + ParentTypes(g, c), k), Get(g, data, c);
      found == if r.Some? && k in r.value then Some(r.value[k]) else None
  {
    ReduceFindsFirst(data, [c] + ParentTypes(g, c), k);
  }

  /** Where nothing lies between, the lookup of `c` finds what that of the nearest branching type finds. */
  lemma {:induction false} NearestIsFound(g: Graph, data: Overwrites, c: TypeName, k: string)
    requires Acyclic(g)
    requires var a := Nearest(g, c);
      && (forall u :: u in data && (u == c || Reaches(g, c, u)) ==> !Reaches(g, u, a))
      && First(data, [a] + ParentTypes(g, a), k).Some?
    ensures var a := Nearest(g, c);
      First(data, [c] + ParentTypes(g, c), k) == First(data, [a] + ParentTypes(g, a), k)
    decreases Height(g, c)
  {
    if |Extends(g, c)| == 1 {
      var x, a := Extends(g, c)[0], Nearest(g, c);
      assert Extends(g, c) == [x];
      ParentsBelow(g, c);
      ReachesParent(g, c, x);
      NothingBetween(g, data, c, x, a);
      NearestIsFound(g, data, x, k);
      FoundThroughParent(g, data, c, x, k);
    }
  }

  lemma FoundThroughParent(g: Graph, data: Overwrites, c: TypeName, x: TypeName, k: string)
    requires Acyclic(g) && Extends(g, c) == [x] && c !in data && First(data, [x] + ParentTypes(g, x), k).Some?
    ensures First(data, [c] + ParentTypes(g, c), k) == First(data, [x] + ParentTypes(g, x), k)
  {
    OnlyParentFirst(g, c, x);
    var rest := ParentTypes(g, c)[1 + |ParentTypes(g, x)|..];
    assert ParentTypes(g, c) == ([x] + ParentTypes(g, x)) + rest;
    FirstSplits(data, [x] + ParentTypes(g, x), rest, k);
    FirstSplits(data, [c], ParentTypes(g, c), k);
    assert First(data, [c], k).None?;
  }

  lemma NothingBetween(g: Graph, data: Overwrites, c: TypeName, x: TypeName, a: TypeName)
    requires Acyclic(g) && Extends(g, c) == [x] && a == Nearest(g, c)
    requires forall u :: u in data && (u == c || Reaches(g, c, u)) ==> !Reaches(g, u, a)
    ensures c !in data
    ensures forall u :: u in data && (u == x || Reaches(g, x, u)) ==> !Reaches(g, u, a)
  {
    ReachesParent(g, c, x);
    ParentsBelow(g, c);
    assert Extends(g, c)[0] == x;
    NearestIsAbove(g, x);
    if a != x {
      ReachesTransitive(g, c, x, a);
    }
    forall u | u in data && Reaches(g, x, u)
      ensures !Reaches(g, u, a)
    {
      ReachesTransitive(g, c, x, u);
    }
  }

  /** Four keys: two parents of `a` that set a field differently, `a`, and `d` below it. */
  predicate FourKeys(raw: Overwrites, d: TypeName, a: TypeName, p: TypeName, q: TypeName) {
    && raw.Keys == {a, d, p, q} && "k" !in raw[a]
    && "k" in raw[p] && raw[p]["k"] == Number(0) && "k" in raw[q] && raw[q]["k"] == Number(1)
  }

  /** The lookups of the branching type and of `c` below it differ, where `d` is below both. */
  lemma FourKeysShow(g: Graph, raw: Overwrites, c: TypeName, d: TypeName, a: TypeName, p: TypeName, q: TypeName)
    requires Acyclic(g) && c in g && d in g && Reaches(g, d, c) && a == Nearest(g, c) && FourKeys(raw, d, a, p, q)
    requires a in g && Reaches(g, d, a) && Extends(g, a) != [] && p == Extends(g, a)[0]
    requires LastKnown(g, Extends(g, a)) == Some(q)
    ensures var data := Expand(g, raw, [], [a, d, p, q]); var r := Get(g, data, c);
      r.Some? && "k" in r.value && r.value["k"] == Number(1)
    ensures var data := Expand(g, raw, [], [d, a, p, q]); var r := Get(g, data, c);
      r.Some? && "k" in r.value && r.value["k"] == Number(0)
  {
    ReachesParent(g, a, p);
    LastKnownReached(g, a, Extends(g, a), q);
    LastParentWins(g, raw, [a, d, p, q], a, q, "k");
    FirstParentWins(g, raw, [d, a, p, q], a, d, "k");
    OnlyAround(g, raw, c, d, a, p, q);
    FoundBelow(g, raw, [a, d, p, q], c, "k", Number(1));
    FoundBelow(g, raw, [d, a, p, q], c, "k", Number(0));
  }

  lemma {:induction false} LastKnownReached(g: Graph, a: TypeName, parents: seq<TypeName>, q: TypeName)
    requires LastKnown(g, parents) == Some(q) && forall x :: x in parents ==> x in Extends(g, a)
    ensures Reaches(g, a, q)
  {
    var i := LastKnownIndex(g, parents);
    ReachesParent(g, a, parents[i]);
  }

  lemma FourKeysExist(d: TypeName, a: TypeName, p: TypeName, q: TypeName) returns (raw: Overwrites)
    requires a != d && a != p && a != q && d != p && d != q && p != q
    ensures FourKeys(raw, d, a, p, q) && Enumerates([a, d, p, q], raw) && Enumerates([d, a, p, q], raw)
  {
    raw := map[a := map[], d := map[], p := map["k" := Number(0)], q := map["k" := Number(1)]];
    assert raw.Keys == {a, d, p, q};
  }

  lemma AllDistinct(g: Graph, d: TypeName, a: TypeName, p: TypeName, q: TypeName)
    requires Acyclic(g) && Reaches(g, d, a) && p in Extends(g, a) && q in Extends(g, a)
    ensures a != d && a != p && a != q && d != p && d != q
  {
    ReachesParent(g, a, p);
    ReachesParent(g, a, q);
    ReachesTransitive(g, d, a, p);
    ReachesTransitive(g, d, a, q);
  }

  lemma BranchingShows(g: Graph, c: TypeName, d: TypeName)
    requires Acyclic(g) && WellFormed(g) && c in g && d in g && Reaches(g, d, c) && |Extends(g, Nearest(g, c))| > 1
    ensures OrderShows(g, c)
  {
    var a := Nearest(g, c);
    var parents := Extends(g, a);
    var p, q := parents[0], parents[|parents| - 1];
    NearestIsAbove(g, c);
    if a != c {
      ReachesTransitive(g, d, c, a);
    }
    AllDistinct(g, d, a, p, q);
    assert ListsKnownOnce(g, a);
    assert p != q && LastKnown(g, parents) == Some(q);
    var raw := FourKeysExist(d, a, p, q);
    FourKeysShow(g, raw, c, d, a, p, q);
  }

  /** What the lookup of the branching type finds that of `c` finds, if no key lies between the two. */
  lemma FoundBelow(g: Graph, raw: Overwrites, keys: seq<TypeName>, c: TypeName, k: string, v: Value)
    requires Acyclic(g) && Enumerates(keys, raw)
    requires forall u :: u in raw && (u == c || Reaches(g, c, u)) ==> !Reaches(g, u, Nearest(g, c))
    requires var r := Get(g, Expand(g, raw, [], keys), Nearest(g, c)); r.Some? && k in r.value && r.value[k] == v
    ensures var r := Get(g, Expand(g, raw, [], keys), c); r.Some? && k in r.value && r.value[k] == v
  {
    var data := Expand(g, raw, [], keys);
    RawIsSound(g, raw);
    ExpandIsSound(g, raw, raw, [], keys);
    GetFinds(g, data, Nearest(g, c), k);
    NearestIsFound(g, data, c, k);
    GetFinds(g, data, c, k);
  }

  lemma OnlyAround(g: Graph, raw: Overwrites, c: TypeName, d: TypeName, a: TypeName, p: TypeName, q: TypeName)
    requires Acyclic(g) && raw.Keys == {a, d, p, q} && Reaches(g, d, c) && Reaches(g, a, p) && Reaches(g, a, q)
    ensures forall u :: u in raw && (u == c || Reaches(g, c, u)) ==> !Reaches(g, u, a)
  {
    forall u | u in raw && (u == c || Reaches(g, c, u)) && Reaches(g, u, a)
      ensures false
    {
      if u == d {
        if u != c { ReachesTransitive(g, d, c, d); }
      } else {
        if u != a { ReachesTransitive(g, a, u, a); }
      }
    }
  }

  /**
   The exact condition, for a type that has a recognised type below it: the key
   order shows in its lookup, for some overwrites, exactly if it or one of its
   ancestors has several parents. If not, the lookup is the
   nearest-ancestor-wins merge, whatever the other types extend.
   */
  lemma OrderShowsIff(g: Graph, c: TypeName, d: TypeName)
    requires Acyclic(g) && WellFormed(g) && d in g && Reaches(g, d, c)
    ensures OrderShows(g, c) <==> !Straight(g, c)
  {
    if Straight(g, c) {
      forall raw, keys | Enumerates(keys, raw)
        ensures Get(g, Expand(g, raw, [], keys), c) == Inherited(g, raw, c)
      {
        LookupIsOrderIndependent(g, raw, keys, c);
      }
    } else {
      NearestHasSeveral(g, c);
      BranchingShows(g, c, d);
    }
  }

  // ---- several parents, without a child ----

  /** `x` is one of the types, or an ancestor of one. */
  ghost predicate From(g: Graph, types: seq<TypeName>, x: TypeName) {
    exists i :: 0 <= i < |types| && (types[i] == x || Reaches(g, types[i], x))
  }

  /** Resolving a type marks nothing but it and its ancestors. */
  lemma {:induction false} ResolvedFrom(g: Graph, data: Overwrites, resolved: seq<TypeName>, t: TypeName, x: TypeName)
    requires Acyclic(g) && x in Resolve(g, data, resolved, t).resolved && x !in resolved
    ensures x == t || Reaches(g, t, x)
    decreases Height(g, t), 1
  {
    if x != t {
      ParentsBelow(g, t);
      ResolvedFromAll(g, data, resolved, Extends(g, t), Height(g, t), x);
      var i :| 0 <= i < |Extends(g, t)| && (Extends(g, t)[i] == x || Reaches(g, Extends(g, t)[i], x));
      ReachesParent(g, t, Extends(g, t)[i]);
      if Extends(g, t)[i] != x {
        ReachesTransitive(g, t, Extends(g, t)[i], x);
      }
    }
  }

  lemma {:induction false} ResolvedFromAll(
      g: Graph, data: Overwrites, resolved: seq<TypeName>, parents: seq<TypeName>, n: nat, x: TypeName)
    requires Acyclic(g) && Below(g, parents, n)
    requires x in ResolveAll(g, data, resolved, parents, n).resolved && x !in resolved
    ensures From(g, parents, x)
    decreases n, 0, |parents|
  {
    var last := |parents| - 1;
    assert Height(g, parents[last]) < n;
    var before := ResolveAll(g, data, resolved, parents[..last], n);
    if x in before.resolved {
      ResolvedFromAll(g, data, resolved, parents[..last], n, x);
      var i :| 0 <= i < last && (parents[..last][i] == x || Reaches(g, parents[..last][i], x));
      assert parents[i] == parents[..last][i];
    } else {
      ResolvedFrom(g, data, before.resolved, parents[last], x);
    }
  }

  /** Parents that are not recognised add nothing. */
  lemma {:induction false} UnknownAddNothing(
      g: Graph, data: Overwrites, resolved: seq<TypeName>, parents: seq<TypeName>, n: nat, m: nat)
    requires Acyclic(g) && Below(g, parents, n) && AllKnown(g, resolved) && m <= |parents|
    requires forall j :: m <= j < |parents| ==> parents[j] !in g
    ensures Below(g, parents[..m], n)
    ensures ResolveAll(g, data, resolved, parents, n).fields == ResolveAll(g, data, resolved, parents[..m], n).fields
    decreases |parents|
  {
    BelowPrefix(g, parents, n, m);
    if m == |parents| {
      assert parents[..m] == parents;
    } else {
      var last := |parents| - 1;
      BelowPrefix(g, parents, n, last);
      UnknownAddNothing(g, data, resolved, parents[..last], n, m);
      assert parents[..last][..m] == parents[..m];
      LastUnknownAddsNothing(g, data, resolved, parents, n);
    }
  }

  lemma LastUnknownAddsNothing(g: Graph, data: Overwrites, resolved: seq<TypeName>, parents: seq<TypeName>, n: nat)
    requires Acyclic(g) && Below(g, parents, n) && AllKnown(g, resolved) && parents != []
    requires parents[|parents| - 1] !in g
    ensures Below(g, parents[..|parents| - 1], n)
    ensures ResolveAll(g, data, resolved, parents, n).fields ==
      ResolveAll(g, data, resolved, parents[..|parents| - 1], n).fields
  {
    var last := |parents| - 1;
    assert Height(g, parents[last]) < n;
    BelowPrefix(g, parents, n, last);
    ResolvedKnownAll(g, data, resolved, parents[..last], n);
    var before := ResolveAll(g, data, resolved, parents[..last], n);
    assert Resolve(g, data, before.resolved, parents[last]).fields.None?;
    assert before.fields + map[] == before.fields;
  }

  lemma BelowPrefix(g: Graph, types: seq<TypeName>, n: int, m: nat)
    requires Below(g, types, n) && m <= |types|
    ensures Below(g, types[..m], n)
  {
    forall i {:trigger Height(g, types[..m][i])} | 0 <= i < m
      ensures Height(g, types[..m][i]) < n
    {
      assert types[..m][i] == types[i] && Height(g, types[i]) < n;
    }
  }

  /** The merge over the first `l + 1` parents is that over the first `l`, overridden by parent `l`. */
  lemma MergeNext(g: Graph, data: Overwrites, resolved: seq<TypeName>, parents: seq<TypeName>, n: nat, l: nat)
    requires Acyclic(g) && Below(g, parents, n) && l < |parents|
    ensures Below(g, parents[..l], n) && Below(g, parents[..l + 1], n)
    ensures var before := ResolveAll(g, data, resolved, parents[..l], n);
      ResolveAll(g, data, resolved, parents[..l + 1], n).fields ==
        Assign(before.fields, Resolve(g, data, before.resolved, parents[l]).fields)
  {
    BelowPrefix(g, parents, n, l);
    BelowPrefix(g, parents, n, l + 1);
    assert parents[..l + 1][..l] == parents[..l];
    assert Height(g, parents[l]) < n;
  }

  /**
   The last recognised parent of `c`, its parent number `l`, has a recognised
   child `f` that is not below `c`; no earlier parent of `c` is that parent or
   below it. `a` is the recognised parent before it, and `y` its own last one.
   */
  ghost predicate Overtaken(g: Graph, c: TypeName, f: TypeName, l: nat, a: TypeName, y: TypeName) {
    && c in g && f in g && l < |Extends(g, c)|
    && var parents := Extends(g, c);
       && parents[l] in g && (forall j :: l < j < |parents| ==> parents[j] !in g)
       && LastKnown(g, parents[..l]) == Some(a) && LastKnown(g, Extends(g, parents[l])) == Some(y)
       && parents[l] in Extends(g, f) && f != c && !Reaches(g, f, c)
       && !From(g, parents[..l], parents[l])
  }

  /** Overwrites that set a field differently for `a` and `y`, but not for the types in between. */
  predicate Overtakes(raw: Overwrites, c: TypeName, f: TypeName, a: TypeName, b: TypeName, y: TypeName, k: string) {
    && c in raw && f in raw && a in raw && y in raw
    && k in raw[a] && k in raw[y] && raw[a][k] != raw[y][k] && k !in raw[c] && (b in raw ==> k !in raw[b])
  }

  lemma OwnFound(g: Graph, data: Overwrites, c: TypeName, k: string)
    requires Acyclic(g) && c in data && k in data[c]
    ensures var r := Get(g, data, c); r.Some? && k in r.value && r.value[k] == data[c][k]
  {
    var types := [c] + ParentTypes(g, c);
    assert types[0] == c;
    ReduceFindsFirst(data, types, k);
  }

  /** What a type that is resolved afresh gets for a field that it does not set. */
  lemma ResolveMerges(g: Graph, data: Overwrites, resolved: seq<TypeName>, t: TypeName, l: nat, k: string)
    requires Acyclic(g) && t in g && t !in resolved && AllKnown(g, resolved) && l < |Extends(g, t)|
    requires forall j :: l < j < |Extends(g, t)| ==> Extends(g, t)[j] !in g
    requires t in data ==> k !in data[t]
    ensures Below(g, Extends(g, t), Height(g, t)) && Below(g, Extends(g, t)[..l], Height(g, t))
    ensures var before := ResolveAll(g, data, resolved, Extends(g, t)[..l], Height(g, t));
      var merged := Assign(before.fields, Resolve(g, data, before.resolved, Extends(g, t)[l]).fields);
      var r := Resolve(g, data, resolved, t).fields;
      && r.Some? && (k in r.value <==> k in merged) && (k in merged ==> r.value[k] == merged[k])
  {
    ParentsBelow(g, t);
    MergeNext(g, data, resolved, Extends(g, t), Height(g, t), l);
    UnknownAddNothing(g, data, resolved, Extends(g, t), Height(g, t), l + 1);
  }

  /** Enumerated first, `c` gets the value of `y` through its last parent. */
  lemma OvertakenFirst(
      g: Graph, raw: Overwrites, keys: seq<TypeName>, c: TypeName, f: TypeName, l: nat, a: TypeName, y: TypeName,
      k: string)
    requires Acyclic(g) && Overtaken(g, c, f, l, a, y) && Overtakes(raw, c, f, a, Extends(g, c)[l], y, k)
    requires keys != [] && keys[0] == c
    ensures var r := Get(g, Expand(g, raw, [], keys), c); r.Some? && k in r.value && r.value[k] == raw[y][k]
  {
    var b, parents, n := Extends(g, c)[l], Extends(g, c), Height(g, c);
    ResolveMerges(g, raw, [], c, l, k);
    var before := ResolveAll(g, raw, [], parents[..l], n);
    ResolvedKnownAll(g, raw, [], parents[..l], n);
    if b in before.resolved {
      ResolvedFromAll(g, raw, [], parents[..l], n, b);
    }
    ParentsBelow(g, b);
    LastKnownWins(g, raw, before.resolved, Extends(g, b), Height(g, b), y, k);
    var r := Resolve(g, raw, [], c);
    assert k in r.fields.value && r.fields.value[k] == raw[y][k];
    OwnStays(g, Store(raw, c, r.fields), r.resolved, keys[1..], c, k);
    OwnFound(g, Expand(g, raw, [], keys), c, k);
  }

  lemma {:induction false} LastKnownIndex(g: Graph, parents: seq<TypeName>) returns (i: nat)
    requires LastKnown(g, parents).Some?
    ensures i < |parents| && LastKnown(g, parents) == Some(parents[i])
    decreases |parents|
  {
    i := |parents| - 1;
    if parents[i] !in g {
      i := LastKnownIndex(g, parents[..i]);
    }
  }

  lemma AfterChild(g: Graph, raw: Overwrites, c: TypeName, f: TypeName, l: nat, a: TypeName, y: TypeName)
    requires Acyclic(g) && Overtaken(g, c, f, l, a, y)
    ensures var b, r := Extends(g, c)[l], Resolve(g, raw, [], f).resolved;
      b in r && c !in r && AllKnown(g, r) && a != f && b != f
  {
    var b, parents := Extends(g, c)[l], Extends(g, c);
    ParentsBelow(g, f);
    ParentIsResolved(g, raw, [], Extends(g, f), Height(g, f), b);
    ResolvedKnown(g, raw, [], f);
    if c in Resolve(g, raw, [], f).resolved {
      ResolvedFrom(g, raw, [], f, c);
    }
    ReachesParent(g, f, b);
    var i := LastKnownIndex(g, parents[..l]);
    assert parents[..l][i] == a;
  }

  /** With its last recognised parent resolved already, a type gets the value of the recognised parent before it. */
  lemma ResolvedParentIsOvertaken(
      g: Graph, data: Overwrites, resolved: seq<TypeName>, c: TypeName, l: nat, a: TypeName, k: string)
    requires Acyclic(g) && c in g && c !in resolved && AllKnown(g, resolved) && l < |Extends(g, c)|
    requires forall j :: l < j < |Extends(g, c)| ==> Extends(g, c)[j] !in g
    requires LastKnown(g, Extends(g, c)[..l]) == Some(a) && Extends(g, c)[l] in resolved
    requires a in data && k in data[a] && (c in data ==> k !in data[c])
    requires Extends(g, c)[l] in data ==> k !in data[Extends(g, c)[l]]
    ensures var r := Resolve(g, data, resolved, c).fields; r.Some? && k in r.value && r.value[k] == data[a][k]
  {
    ResolveMerges(g, data, resolved, c, l, k);
    LastKnownWins(g, data, resolved, Extends(g, c)[..l], Height(g, c), a, k);
    ResolvedGrowsAll(g, data, resolved, Extends(g, c)[..l], Height(g, c));
  }

  lemma ExpandTwo(g: Graph, raw: Overwrites, keys: seq<TypeName>)
    requires Acyclic(g) && |keys| > 1
    ensures var one := Resolve(g, raw, [], keys[0]); var data := Store(raw, keys[0], one.fields);
      var two := Resolve(g, data, one.resolved, keys[1]);
      Expand(g, raw, [], keys) == Expand(g, Store(data, keys[1], two.fields), two.resolved, keys[2..])
  {
    assert keys[1..][1..] == keys[2..];
  }

  /** Enumerated after `f`, which has its last parent resolved but not stored, `c` gets the value of `a`. */
  lemma OvertakenSecond(
      g: Graph, raw: Overwrites, keys: seq<TypeName>, c: TypeName, f: TypeName, l: nat, a: TypeName, y: TypeName,
      k: string)
    requires Acyclic(g) && Overtaken(g, c, f, l, a, y) && Overtakes(raw, c, f, a, Extends(g, c)[l], y, k)
    requires |keys| > 1 && keys[0] == f && keys[1] == c
    ensures var r := Get(g, Expand(g, raw, [], keys), c); r.Some? && k in r.value && r.value[k] == raw[a][k]
  {
    var rf := Resolve(g, raw, [], f);
    var data := Store(raw, f, rf.fields);
    AfterChild(g, raw, c, f, l, a, y);
    ResolvedParentIsOvertaken(g, data, rf.resolved, c, l, a, k);
    ExpandTwo(g, raw, keys);
    var rc := Resolve(g, data, rf.resolved, c);
    OwnStays(g, Store(data, c, rc.fields), rc.resolved, keys[2..], c, k);
    OwnFound(g, Expand(g, raw, [], keys), c, k);
  }

  /** The order also shows in the lookup of a type without a child, if a child of its last parent can come first. */
  lemma OvertakenTypeShowsTheOrder(
      g: Graph, raw: Overwrites, c: TypeName, f: TypeName, l: nat, a: TypeName, y: TypeName, k: string,
      first: seq<TypeName>, second: seq<TypeName>)
    requires Acyclic(g) && Overtaken(g, c, f, l, a, y) && Overtakes(raw, c, f, a, Extends(g, c)[l], y, k)
    requires Enumerates(first, raw) && Enumerates(second, raw)
    requires first[0] == c && |second| > 1 && second[0] == f && second[1] == c
    ensures Get(g, Expand(g, raw, [], first), c) != Get(g, Expand(g, raw, [], second), c)
  {
    OvertakenFirst(g, raw, first, c, f, l, a, y, k);
    OvertakenSecond(g, raw, second, c, f, l, a, y, k);
  }

  // ---- what the expansion stores ----

  /** `u` is `t` or one of its ancestors. */
  ghost predicate OnLine(g: Graph, t: TypeName, u: TypeName) {
    u == t || Reaches(g, t, u)
  }

  /** The types that `k` resolves and those that `t` does have nothing in common. */
  ghost predicate Unrelated(g: Graph, k: TypeName, t: TypeName) {
    forall u :: OnLine(g, t, u) ==> !OnLine(g, k, u)
  }

  /** Neither `t` nor an ancestor has been resolved, and all have what they were given. */
  ghost predicate Untouched(g: Graph, raw: Overwrites, data: Overwrites, resolved: seq<TypeName>, t: TypeName) {
    forall u :: OnLine(g, t, u) ==> u in g && u !in resolved && Lookup(data, u) == Lookup(raw, u)
  }

  lemma UntouchedParent(
      g: Graph, raw: Overwrites, data: Overwrites, resolved: seq<TypeName>, t: TypeName, x: TypeName)
    requires x in Extends(g, t) && Untouched(g, raw, data, resolved, t)
    ensures Untouched(g, raw, data, resolved, x)
  {
    ReachesParent(g, t, x);
    forall u | OnLine(g, x, u)
      ensures OnLine(g, t, u)
    {
      if u != x { ReachesTransitive(g, t, x, u); }
    }
  }

  /** A straight type that is resolved before anything on its line gets all that it inherits. */
  lemma {:induction false} ResolvedInFull(
      g: Graph, raw: Overwrites, data: Overwrites, resolved: seq<TypeName>, t: TypeName)
    requires Acyclic(g) && Straight(g, t) && Untouched(g, raw, data, resolved, t)
    ensures All(Resolve(g, data, resolved, t).fields) == All(Inherited(g, raw, t))
    ensures t in raw ==> Resolve(g, data, resolved, t).fields.Some?
    decreases Height(g, t)
  {
    assert OnLine(g, t, t);
    if Extends(g, t) == [] {
      ResolvedAlone(g, raw, data, resolved, t);
    } else {
      var x := Extends(g, t)[0];
      StraightParent(g, t);
      ParentsBelow(g, t);
      UntouchedParent(g, raw, data, resolved, t, x);
      ResolvedInFull(g, raw, data, resolved, x);
      ResolveChild(g, data, resolved, t, x);
    }
  }

  lemma ResolvedAlone(g: Graph, raw: Overwrites, data: Overwrites, resolved: seq<TypeName>, t: TypeName)
    requires Acyclic(g) && Extends(g, t) == [] && t in g && t !in resolved && Lookup(data, t) == Lookup(raw, t)
    ensures All(Resolve(g, data, resolved, t).fields) == All(Inherited(g, raw, t))
    ensures t in raw ==> Resolve(g, data, resolved, t).fields.Some?
  {
    ParentsBelow(g, t);
    var none: seq<TypeName> := [];
    assert Extends(g, t) == none;
    assert ResolveAll(g, data, resolved, none, Height(g, t)) == Merge(map[], resolved);
  }

  /** Resolving an unrelated type leaves the line of `t` untouched. */
  lemma UnrelatedKeeps(
      g: Graph, raw: Overwrites, data: Overwrites, resolved: seq<TypeName>, k: TypeName, t: TypeName)
    requires Acyclic(g) && Untouched(g, raw, data, resolved, t) && Unrelated(g, k, t)
    ensures var r := Resolve(g, data, resolved, k);
      Untouched(g, raw, Store(data, k, r.fields), r.resolved, t)
  {
    var r := Resolve(g, data, resolved, k);
    assert OnLine(g, k, k);
    forall u | OnLine(g, t, u)
      ensures u !in r.resolved && Lookup(Store(data, k, r.fields), u) == Lookup(raw, u)
    {
      assert !OnLine(g, k, u);
      if u in r.resolved {
        ResolvedFrom(g, data, resolved, k, u);
      }
    }
  }

  /**
   A straight type whose key comes before those of all types that share an
   ancestor with it is stored with everything that it inherits, and keeps it.
   */
  lemma {:induction false} StoredInFull(
      g: Graph, raw: Overwrites, data: Overwrites, resolved: seq<TypeName>, keys: seq<TypeName>, i: nat, t: TypeName)
    requires Acyclic(g) && Straight(g, t) && Untouched(g, raw, data, resolved, t) && t in raw && t in data
    requires i < |keys| && keys[i] == t && forall j :: 0 <= j < i ==> Unrelated(g, keys[j], t)
    ensures var r := Expand(g, data, resolved, keys); t in r && r[t] == All(Inherited(g, raw, t))
    decreases |keys|
  {
    var r := Resolve(g, data, resolved, keys[0]);
    if i == 0 {
      ResolvedInFull(g, raw, data, resolved, t);
      assert OnLine(g, t, t);
      ResolveResolves(g, data, resolved, t);
      InheritsOwn(g, raw, t);
      assert Store(data, t, r.fields)[t] == All(Inherited(g, raw, t));
      LaterKeysKeep(g, Store(data, t, r.fields), r.resolved, keys[1..], t);
    } else {
      UnrelatedKeeps(g, raw, data, resolved, keys[0], t);
      StoredInFull(g, raw, Store(data, keys[0], r.fields), r.resolved, keys[1..], i - 1, t);
    }
  }

  lemma InheritsOwn(g: Graph, raw: Overwrites, t: TypeName)
    requires Acyclic(g) && t in raw
    ensures Submap(raw[t], All(Inherited(g, raw, t)))
  {
    ParentsBelow(g, t);
  }

  /** A type that is resolved on the way to one below it, whose key comes first, is stored as it was given. */
  lemma {:induction false} StoredAsGiven(
      g: Graph, data: Overwrites, resolved: seq<TypeName>, keys: seq<TypeName>, i: nat, t: TypeName)
    requires Acyclic(g) && Closed(g, resolved) && t in g && t in data
    requires i < |keys| && keys[i] in g && Reaches(g, keys[i], t) && t !in keys[..i]
    ensures var r := Expand(g, data, resolved, keys); t in r && r[t] == data[t]
    decreases |keys|
  {
    var r := Resolve(g, data, resolved, keys[0]);
    var stored := Store(data, keys[0], r.fields);
    ResolvedClosed(g, data, resolved, keys[0]);
    if i == 0 {
      ResolveResolves(g, data, resolved, keys[0]);
      ClosedHasAncestors(g, r.resolved, keys[0], t);
      LaterKeysKeep(g, stored, r.resolved, keys[1..], t);
    } else {
      assert keys[..i][0] == keys[0] && forall x :: x in keys[1..][..i - 1] ==> x in keys[..i];
      StoredAsGiven(g, stored, r.resolved, keys[1..], i - 1, t);
    }
  }
}
