/** The `extends` graph of credential types and the worklist that collects a type's ancestors. */
module CredentialTypes {
  import opened Basics

  type TypeName = string

  /** The recognised types; `None` is a type that declares no `extends`. */
  type Graph = map<TypeName, Option<seq<TypeName>>>

  function Extends(g: Graph, t: TypeName): seq<TypeName> {
    if t in g && g[t].Some? then g[t].value else []
  }

  ghost predicate Path(g: Graph, p: seq<TypeName>) {
    forall i :: 0 <= i < |p| - 1 ==> p[i + 1] in Extends(g, p[i])
  }

  ghost predicate PathFrom(g: Graph, p: seq<TypeName>, t: TypeName, u: TypeName) {
    |p| >= 2 && p[0] == t && p[|p| - 1] == u && Path(g, p)
  }

  /** `u` is a proper ancestor of `t`. */
  ghost predicate Reaches(g: Graph, t: TypeName, u: TypeName) {
    exists p :: PathFrom(g, p, t, u)
  }

  ghost predicate Acyclic(g: Graph) {
    forall t :: !Reaches(g, t, t)
  }

  ghost function Ancestors(g: Graph, t: TypeName): set<TypeName> {
    set s, u | s in g && u in Extends(g, s) && Reaches(g, t, u) :: u
  }

  ghost function Height(g: Graph, t: TypeName): nat {
    |Ancestors(g, t)|
  }

  lemma ReachesParent(g: Graph, t: TypeName, u: TypeName)
    requires u in Extends(g, t)
    ensures Reaches(g, t, u)
  {
    assert PathFrom(g, [t, u], t, u);
  }

  lemma ReachesTransitive(g: Graph, t: TypeName, u: TypeName, v: TypeName)
    requires Reaches(g, t, u) && Reaches(g, u, v)
    ensures Reaches(g, t, v)
  {
    var p :| PathFrom(g, p, t, u);
    var q :| PathFrom(g, q, u, v);
    assert PathFrom(g, p + q[1..], t, v);
  }

  lemma ReachesThrough(g: Graph, t: TypeName, v: TypeName) returns (u: TypeName)
    requires Reaches(g, t, v)
    ensures u in Extends(g, t) && (u == v || Reaches(g, u, v))
  {
    var p :| PathFrom(g, p, t, v);
    u := p[1];
    if |p| > 2 {
      assert PathFrom(g, p[1..], u, v);
    }
  }

  lemma AncestorsAre(g: Graph, t: TypeName, v: TypeName)
    ensures v in Ancestors(g, t) <==> Reaches(g, t, v)
  {
    if Reaches(g, t, v) {
      var p :| PathFrom(g, p, t, v);
      assert v in Extends(g, p[|p| - 2]);
    }
  }

  lemma ProperSubsetIsSmaller<T>(a: set<T>, b: set<T>)
    requires a < b
    ensures |a| < |b|
  {
    var x :| x in b && x !in a;
    assert a <= b - {x};
    SubsetIsSmaller(a, b - {x});
  }

  lemma SubsetIsSmaller<T>(a: set<T>, b: set<T>)
    requires a <= b
    ensures |a| <= |b|
  {
    if x :| x in a {
      SubsetIsSmaller(a - {x}, b - {x});
    }
  }

  /** Every ancestor has strictly fewer ancestors: the measure on which the worklist terminates. */
  lemma AncestorIsLower(g: Graph, t: TypeName, u: TypeName)
    requires Acyclic(g) && Reaches(g, t, u)
    ensures Height(g, u) < Height(g, t)
  {
    forall v | v in Ancestors(g, u)
      ensures v in Ancestors(g, t)
    {
      AncestorsAre(g, u, v);
      ReachesTransitive(g, t, u, v);
      AncestorsAre(g, t, v);
    }
    AncestorsAre(g, t, u);
    AncestorsAre(g, u, u);
    ProperSubsetIsSmaller(Ancestors(g, u), Ancestors(g, t));
  }

  ghost predicate Below(g: Graph, types: seq<TypeName>, n: int) {
    forall i {:trigger Height(g, types[i])} :: 0 <= i < |types| ==> Height(g, types[i]) < n
  }

  lemma ParentsBelow(g: Graph, t: TypeName)
    requires Acyclic(g)
    ensures Below(g, Extends(g, t), Height(g, t))
  {
    forall i | 0 <= i < |Extends(g, t)|
      ensures Height(g, Extends(g, t)[i]) < Height(g, t)
    {
      ReachesParent(g, t, Extends(g, t)[i]);
      AncestorIsLower(g, t, Extends(g, t)[i]);
    }
  }

  /**
   What the growing worklist of `getParentTypes` ends up with. The queue is
   first in first out, so it holds the direct parents, followed by everything
   that processing those has appended, and so on.
   */
  function ParentTypes(g: Graph, t: TypeName): (r: seq<TypeName>)
    requires Acyclic(g)
    ensures Below(g, r, Height(g, t))
    decreases Height(g, t), 2
  {
    ParentsBelow(g, t);
    Generations(g, Extends(g, t), Height(g, t))
  }

  function Generations(g: Graph, gen: seq<TypeName>, ghost n: nat): (r: seq<TypeName>)
    requires Acyclic(g) && Below(g, gen, n)
    ensures Below(g, r, n)
    decreases n, 1
  {
    if gen == [] then []
    else
      assert Height(g, gen[0]) < n;
      gen + Generations(g, AllParents(g, gen, n), n - 1)
  }

  function AllParents(g: Graph, gen: seq<TypeName>, ghost n: nat): (r: seq<TypeName>)
    requires Acyclic(g) && Below(g, gen, n)
    ensures Below(g, r, n - 1)
    decreases n, 0, |gen|
  {
    if gen == [] then []
    else
      var last := |gen| - 1;
      assert Height(g, gen[last]) < n;
      AllParents(g, gen[..last], n) + ParentTypes(g, gen[last])
  }

  /** A visited generation is followed by everything it has appended. */
  lemma NextGeneration(g: Graph, gen: seq<TypeName>, n: nat)
    requires Acyclic(g) && Below(g, gen, n) && gen != []
    ensures n > 0 && Below(g, AllParents(g, gen, n), n - 1)
    ensures Generations(g, gen, n) == gen + Generations(g, AllParents(g, gen, n), n - 1)
  {
    assert Height(g, gen[0]) < n;
  }

  lemma NextStep(g: Graph, gen: seq<TypeName>, n: nat) returns (next: seq<TypeName>, later: seq<TypeName>, m: nat)
    requires Acyclic(g) && Below(g, gen, n) && gen != []
    ensures m < n && next == AllParents(g, gen, n) && Below(g, next, m) && later == Generations(g, next, m)
    ensures Generations(g, gen, n) == gen + later
  {
    NextGeneration(g, gen, n);
    next, m := AllParents(g, gen, n), n - 1;
    later := Generations(g, next, m);
  }

  lemma {:induction false} AllParentsContains(g: Graph, gen: seq<TypeName>, n: nat, x: TypeName, u: TypeName)
    requires Acyclic(g) && Below(g, gen, n) && x in gen && u in ParentTypes(g, x)
    ensures u in AllParents(g, gen, n)
    decreases |gen|
  {
    var last := |gen| - 1;
    if gen[last] != x {
      AllParentsContains(g, gen[..last], n, x, u);
    }
  }

  lemma {:induction false} AllParentsFrom(g: Graph, gen: seq<TypeName>, n: nat, u: TypeName) returns (x: TypeName)
    requires Acyclic(g) && Below(g, gen, n) && u in AllParents(g, gen, n)
    ensures x in gen && u in ParentTypes(g, x)
    decreases |gen|
  {
    var last := |gen| - 1;
    if u in ParentTypes(g, gen[last]) {
      x := gen[last];
    } else {
      x := AllParentsFrom(g, gen[..last], n, u);
    }
  }

  lemma InNextGeneration(g: Graph, gen: seq<TypeName>, n: nat, all: seq<TypeName>, u: TypeName)
    returns (next: seq<TypeName>, later: seq<TypeName>, m: nat)
    requires Acyclic(g) && Below(g, gen, n) && all == Generations(g, gen, n) && u in all && u !in gen
    ensures m < n && Below(g, next, m) && later == Generations(g, next, m) && u in later
    ensures forall y :: y in next ==> exists x :: x in gen && Reaches(g, x, y)
    decreases n, 2
  {
    next, later, m := NextStep(g, gen, n);
    forall y | y in next
      ensures exists x :: x in gen && Reaches(g, x, y)
    {
      var x := AllParentsReached(g, gen, n, y);
    }
  }

  /** Whatever a generation leads to is in it or an ancestor of one of its types. */
  lemma {:induction false} GenerationsFrom(g: Graph, gen: seq<TypeName>, n: nat, all: seq<TypeName>, u: TypeName)
    returns (x: TypeName)
    requires Acyclic(g) && Below(g, gen, n) && all == Generations(g, gen, n) && u in all
    ensures x in gen && (x == u || Reaches(g, x, u))
    decreases n, 3
  {
    if u in gen {
      x := u;
    } else {
      var next, later, m := InNextGeneration(g, gen, n, all, u);
      var y := GenerationsFrom(g, next, m, later, u);
      x :| x in gen && Reaches(g, x, y);
      if y != u { ReachesTransitive(g, x, y, u); }
    }
  }

  lemma {:induction false} AllParentsReached(g: Graph, gen: seq<TypeName>, n: nat, y: TypeName) returns (x: TypeName)
    requires Acyclic(g) && Below(g, gen, n) && y in AllParents(g, gen, n)
    ensures x in gen && Reaches(g, x, y)
    decreases n, 1
  {
    x := AllParentsFrom(g, gen, n, y);
    assert Height(g, x) < n;
    ParentTypesReached(g, x, y);
  }

  lemma {:induction false} ParentTypesReached(g: Graph, t: TypeName, u: TypeName)
    requires Acyclic(g) && u in ParentTypes(g, t)
    ensures Reaches(g, t, u)
    decreases Height(g, t), 4
  {
    ParentsBelow(g, t);
    var x := GenerationsFrom(g, Extends(g, t), Height(g, t), ParentTypes(g, t), u);
    ReachesParent(g, t, x);
    if x != u { ReachesTransitive(g, t, x, u); }
  }

  /** The worklist collects exactly the proper ancestors. */
  lemma {:induction false} ParentTypesAreAncestors(g: Graph, t: TypeName, u: TypeName)
    requires Acyclic(g)
    ensures u in ParentTypes(g, t) <==> Reaches(g, t, u)
    decreases Height(g, t)
  {
    if u in ParentTypes(g, t) {
      ParentTypesReached(g, t, u);
    }
    if Reaches(g, t, u) {
      ParentsBelow(g, t);
      var x := ReachesThrough(g, t, u);
      NextGeneration(g, Extends(g, t), Height(g, t));
      ParentTypesAreAncestors(g, x, u);
      if x != u {
        AllParentsContains(g, Extends(g, t), Height(g, t), x, u);
        assert u in Generations(g, AllParents(g, Extends(g, t), Height(g, t)), Height(g, t) - 1);
      }
    }
  }

  // ---- the worklist as an equation ----

  function Flatten(parts: seq<seq<TypeName>>): seq<TypeName> {
    if parts == [] then [] else Flatten(parts[..|parts| - 1]) + parts[|parts| - 1]
  }

  lemma {:induction false} FlattenAppend(a: seq<seq<TypeName>>, b: seq<seq<TypeName>>)
    ensures Flatten(a + b) == Flatten(a) + Flatten(b)
    decreases |b|
  {
    if b == [] {
      assert a + b == a;
    } else {
      var last := |b| - 1;
      assert (a + b)[..|a + b| - 1] == a + b[..last];
      FlattenAppend(a, b[..last]);
    }
  }

  /** What visiting each of the types appends. */
  ghost predicate PartsOf(g: Graph, types: seq<TypeName>, parts: seq<seq<TypeName>>)
    requires Acyclic(g)
  {
    |parts| == |types| && forall i {:trigger parts[i]} :: 0 <= i < |types| ==> parts[i] == ParentTypes(g, types[i])
  }

  lemma {:induction false} AllParentsParts(g: Graph, gen: seq<TypeName>, n: nat) returns (parts: seq<seq<TypeName>>)
    requires Acyclic(g) && Below(g, gen, n)
    ensures PartsOf(g, gen, parts) && AllParents(g, gen, n) == Flatten(parts)
    decreases |gen|
  {
    parts := [];
    if gen != [] {
      var last := |gen| - 1;
      var earlier := AllParentsParts(g, gen[..last], n);
      parts := earlier + [ParentTypes(g, gen[last])];
      assert parts[..last] == earlier;
    }
  }

  lemma {:induction false} GenerationsParts(g: Graph, gen: seq<TypeName>, n: nat, all: seq<TypeName>)
    returns (parts: seq<seq<TypeName>>)
    requires Acyclic(g) && Below(g, gen, n) && all == Generations(g, gen, n)
    ensures PartsOf(g, all, parts) && all == gen + Flatten(parts)
    decreases n
  {
    if gen == [] {
      parts := [];
    } else {
      var next, later, first, m := NextParts(g, gen, n);
      var rest := GenerationsParts(g, next, m, later);
      parts := JoinParts(g, gen, later, first, rest, all);
    }
  }

  lemma NextParts(g: Graph, gen: seq<TypeName>, n: nat)
    returns (next: seq<TypeName>, later: seq<TypeName>, first: seq<seq<TypeName>>, m: nat)
    requires Acyclic(g) && Below(g, gen, n) && gen != []
    ensures m < n && Below(g, next, m) && later == Generations(g, next, m)
    ensures Generations(g, gen, n) == gen + later
    ensures PartsOf(g, gen, first) && next == Flatten(first)
  {
    next, later, m := NextStep(g, gen, n);
    first := AllParentsParts(g, gen, n);
  }

  lemma JoinParts(
      g: Graph, gen: seq<TypeName>, later: seq<TypeName>, first: seq<seq<TypeName>>, rest: seq<seq<TypeName>>,
      all: seq<TypeName>)
    returns (parts: seq<seq<TypeName>>)
    requires Acyclic(g) && PartsOf(g, gen, first) && PartsOf(g, later, rest)
    requires all == gen + later && later == Flatten(first) + Flatten(rest)
    ensures PartsOf(g, all, parts) && all == gen + Flatten(parts)
  {
    parts := first + rest;
    FlattenAppend(first, rest);
    assert parts[..|gen|] == first && parts[|gen|..] == rest && all[..|gen|] == gen && all[|gen|..] == later;
    PartsSplit(g, all, parts, |gen|);
  }

  lemma PartsSplit(g: Graph, types: seq<TypeName>, parts: seq<seq<TypeName>>, k: nat)
    requires Acyclic(g) && k <= |types| == |parts|
    requires PartsOf(g, types[..k], parts[..k]) && PartsOf(g, types[k..], parts[k..])
    ensures PartsOf(g, types, parts)
  {
    forall i {:trigger parts[i]} | 0 <= i < |types|
      ensures parts[i] == ParentTypes(g, types[i])
    {
      if i < k {
        assert parts[..k][i] == parts[i];
      } else {
        assert parts[k..][i - k] == parts[i];
      }
    }
  }

  /**
   The worklist is the sequence that begins with the direct parents, in their
   order, and goes on with what visiting each of its own members, in turn, appends.
   */
  lemma WorklistEquation(g: Graph, t: TypeName) returns (parts: seq<seq<TypeName>>)
    requires Acyclic(g)
    ensures |parts| == |ParentTypes(g, t)|
    ensures forall i :: 0 <= i < |parts| ==> parts[i] == ParentTypes(g, ParentTypes(g, t)[i])
    ensures ParentTypes(g, t) == Extends(g, t) + Flatten(parts)
  {
    ParentsBelow(g, t);
    parts := GenerationsParts(g, Extends(g, t), Height(g, t), ParentTypes(g, t));
  }

  // ---- chains ----

  predicate SingleParent(g: Graph) {
    forall t :: t in g ==> |Extends(g, t)| <= 1
  }

  /** Neither `t` nor any of its ancestors has more than one parent. */
  ghost predicate Straight(g: Graph, t: TypeName) {
    |Extends(g, t)| <= 1 && forall u :: Reaches(g, t, u) ==> |Extends(g, u)| <= 1
  }

  lemma SingleParentIsStraight(g: Graph, t: TypeName)
    requires SingleParent(g)
    ensures Straight(g, t)
  {
    assert forall u :: u !in g ==> Extends(g, u) == [];
  }

  lemma StraightParent(g: Graph, t: TypeName)
    requires Straight(g, t) && Extends(g, t) != []
    ensures Extends(g, t) == [Extends(g, t)[0]] && Straight(g, Extends(g, t)[0])
  {
    var x := Extends(g, t)[0];
    ReachesParent(g, t, x);
    forall u | Reaches(g, x, u)
      ensures |Extends(g, u)| <= 1
    {
      ReachesTransitive(g, t, x, u);
    }
  }

  /** The ancestors of a straight type, nearest first. */
  function Chain(g: Graph, t: TypeName): (r: seq<TypeName>)
    requires Acyclic(g)
    decreases Height(g, t)
  {
    if Extends(g, t) == [] then []
    else
      ParentsBelow(g, t);
      [Extends(g, t)[0]] + Chain(g, Extends(g, t)[0])
  }

  /** The types visited so far in a generation have appended their parents; visiting `x` appends its own. */
  lemma VisitOne(g: Graph, visited: seq<TypeName>, x: TypeName, n: nat)
    requires Acyclic(g) && Below(g, visited + [x], n) && Below(g, visited, n)
    ensures AllParents(g, visited + [x], n) == AllParents(g, visited, n) + ParentTypes(g, x)
  {
    assert (visited + [x])[..|visited|] == visited;
  }

  lemma OneParent(g: Graph, x: TypeName, n: nat)
    requires Acyclic(g) && Height(g, x) < n
    ensures AllParents(g, [x], n) == ParentTypes(g, x)
  {
    var none: seq<TypeName> := [];
    VisitOne(g, none, x, n);
    assert none + [x] == [x];
    assert AllParents(g, none, n) == none;
  }

  lemma GenerationComesFirst(g: Graph, gen: seq<TypeName>, n: nat)
    requires Acyclic(g) && Below(g, gen, n)
    ensures gen <= Generations(g, gen, n)
  {
  }

  lemma {:induction false} ChainIsPrefix(g: Graph, t: TypeName)
    requires Acyclic(g) && Straight(g, t)
    ensures Chain(g, t) <= ParentTypes(g, t)
    decreases Height(g, t)
  {
    ParentsBelow(g, t);
    if Extends(g, t) != [] {
      var x := Extends(g, t)[0];
      StraightParent(g, t);
      ChainIsPrefix(g, x);
      OnlyParentFirst(g, t, x);
    }
  }

  /** An only parent comes first, followed by its own ancestors as they are collected for itself. */
  lemma OnlyParentFirst(g: Graph, t: TypeName, x: TypeName)
    requires Acyclic(g) && Extends(g, t) == [x]
    ensures [x] + ParentTypes(g, x) <= ParentTypes(g, t)
  {
    ParentsBelow(g, t);
    assert Extends(g, t)[0] == x;
    NextGeneration(g, [x], Height(g, t));
    OneParent(g, x, Height(g, t));
    GenerationComesFirst(g, ParentTypes(g, x), Height(g, t) - 1);
  }

  lemma {:induction false} ChainHasAncestors(g: Graph, t: TypeName, u: TypeName)
    requires Acyclic(g) && Straight(g, t) && Reaches(g, t, u)
    ensures u in Chain(g, t)
    decreases Height(g, t)
  {
    ParentsBelow(g, t);
    var x := ReachesThrough(g, t, u);
    StraightParent(g, t);
    if x != u {
      ChainHasAncestors(g, x, u);
    }
  }

  /** On a chain the result starts with the whole chain, nearest ancestor first; the rest are repeats. */
  lemma ChainComesFirst(g: Graph, t: TypeName)
    requires Acyclic(g) && Straight(g, t)
    ensures Chain(g, t) <= ParentTypes(g, t)
    ensures forall u :: u in ParentTypes(g, t) ==> u in Chain(g, t)
  {
    ChainIsPrefix(g, t);
    forall u | u in ParentTypes(g, t)
      ensures u in Chain(g, t)
    {
      ParentTypesReached(g, t, u);
      ChainHasAncestors(g, t, u);
    }
  }

  ghost predicate Ranked(g: Graph, rank: map<TypeName, nat>) {
    forall t, u :: t in g && u in Extends(g, t) ==> t in rank && u in rank && rank[u] < rank[t]
  }

  /** A rank that falls along `extends` excludes cycles. */
  lemma RankMakesAcyclic(g: Graph, rank: map<TypeName, nat>)
    requires Ranked(g, rank)
    ensures Acyclic(g)
  {
    forall t | Reaches(g, t, t)
      ensures false
    {
      var p :| PathFrom(g, p, t, t);
      RankFalls(g, rank, p, |p| - 1);
    }
  }

  lemma {:induction false} RankFalls(g: Graph, rank: map<TypeName, nat>, p: seq<TypeName>, n: nat)
    requires Ranked(g, rank) && Path(g, p) && 1 <= n < |p|
    ensures p[0] in rank && p[n] in rank && rank[p[n]] < rank[p[0]]
  {
    var i := n - 1;
    assert p[i + 1] in Extends(g, p[i]) && p[i] in g;
    assert p[i] in rank && p[i + 1] in rank && rank[p[i + 1]] < rank[p[i]];
    if n > 1 {
      RankFalls(g, rank, p, i);
    }
  }

  // ---- the worklist ----

  /**
   The worklist by generations: the earlier ones, the current one, of which
   `visited` types have been visited, and what those have appended. The types of
   the current generation have height below `n`.
   */
  datatype Work = Work(before: seq<TypeName>, gen: seq<TypeName>, visited: nat, after: seq<TypeName>, n: nat)

  /** The worklist `r`, of which `i` types have been visited, on the way to the parents of `t`. */
  ghost predicate OnTheWay(g: Graph, t: TypeName, r: seq<TypeName>, i: nat, w: Work)
    requires Acyclic(g)
  {
    && r == w.before + w.gen + w.after && w.visited <= |w.gen| && i == |w.before| + w.visited
    && Below(g, w.gen, w.n) && w.n <= Height(g, t) && (w.gen == [] ==> w.after == [])
    && w.after == Appended(g, w.gen, w.visited, w.n)
    && ParentTypes(g, t) == w.before + Generations(g, w.gen, w.n)
  }

  /** What visiting the first `k` types of a generation appends. */
  function Appended(g: Graph, gen: seq<TypeName>, k: nat, ghost n: nat): seq<TypeName>
    requires Acyclic(g) && Below(g, gen, n) && k <= |gen|
  {
    AllParents(g, gen[..k], n)
  }

  lemma AppendedNext(g: Graph, gen: seq<TypeName>, k: nat, n: nat)
    requires Acyclic(g) && Below(g, gen, n) && k < |gen|
    ensures Appended(g, gen, k + 1, n) == Appended(g, gen, k, n) + ParentTypes(g, gen[k])
  {
    assert gen[..k + 1][..k] == gen[..k];
  }

  lemma WorkStarts(g: Graph, t: TypeName) returns (w: Work)
    requires Acyclic(g)
    ensures OnTheWay(g, t, Extends(g, t), 0, w)
  {
    ParentsBelow(g, t);
    w := Work([], Extends(g, t), 0, [], Height(g, t));
  }

  lemma AllAppended(g: Graph, gen: seq<TypeName>, n: nat, next: seq<TypeName>)
    requires Acyclic(g) && Below(g, gen, n) && gen != [] && next == Appended(g, gen, |gen|, n)
    ensures n > 0 && Below(g, next, n - 1)
    ensures Generations(g, gen, n) == gen + Generations(g, next, n - 1)
  {
    assert gen[..|gen|] == gen;
    NextGeneration(g, gen, n);
  }

  lemma Rebase<T>(whole: seq<T>, before: seq<T>, rest: seq<T>, a: seq<T>, b: seq<T>)
    requires whole == before + rest && rest == a + b
    ensures whole == (before + a) + b
  {
  }

  /** The worklist at the start of a generation, which follows `before`. */
  lemma StartsGeneration(g: Graph, t: TypeName, before: seq<TypeName>, gen: seq<TypeName>, n: nat) returns (w: Work)
    requires Acyclic(g) && Below(g, gen, n) && n <= Height(g, t)
    requires ParentTypes(g, t) == before + Generations(g, gen, n)
    ensures OnTheWay(g, t, before + gen, |before|, w) && w == Work(before, gen, 0, [], n)
  {
    w := Work(before, gen, 0, [], n);
    assert gen[..0] == [];
    assert before + gen + [] == before + gen;
  }

  lemma NextFollows(g: Graph, t: TypeName, r: seq<TypeName>, i: nat, w: Work) returns (m: nat)
    requires Acyclic(g) && OnTheWay(g, t, r, i, w) && w.visited == |w.gen| && w.gen != []
    ensures m < w.n && Below(g, w.after, m)
    ensures ParentTypes(g, t) == (w.before + w.gen) + Generations(g, w.after, m)
  {
    m := w.n - 1;
    AllAppended(g, w.gen, w.n, w.after);
    Rebase(ParentTypes(g, t), w.before, Generations(g, w.gen, w.n), w.gen, Generations(g, w.after, m));
  }

  lemma MoreToVisit(g: Graph, t: TypeName, r: seq<TypeName>, i: nat, w: Work)
    requires Acyclic(g) && OnTheWay(g, t, r, i, w) && w.visited == |w.gen| && i < |r|
    ensures w.gen != [] && w.after != [] && w.n <= Height(g, t)
    ensures i == |w.before + w.gen| && r == (w.before + w.gen) + w.after
  {
  }

  /** The end of a generation: what its types have appended is the next one. */
  lemma NextWork(g: Graph, t: TypeName, r: seq<TypeName>, i: nat, w: Work) returns (w': Work)
    requires Acyclic(g) && OnTheWay(g, t, r, i, w) && w.visited == |w.gen| && i < |r|
    ensures OnTheWay(g, t, r, i, w') && w'.visited < |w'.gen| && w'.n < w.n
  {
    MoreToVisit(g, t, r, i, w);
    var m := NextFollows(g, t, r, i, w);
    w' := StartsGeneration(g, t, w.before + w.gen, w.after, m);
  }

  /** The type that is visited next is one of the generation, and lower than `t`. */
  lemma NextIsPending(g: Graph, t: TypeName, r: seq<TypeName>, i: nat, w: Work)
    requires Acyclic(g) && OnTheWay(g, t, r, i, w) && w.visited < |w.gen|
    ensures i < |r| && r[i] == w.gen[w.visited] && Height(g, r[i]) < Height(g, t)
  {
  }

  /** Visiting it appends its parents. */
  lemma VisitNext(g: Graph, t: TypeName, r: seq<TypeName>, i: nat, w: Work, parents: seq<TypeName>) returns (w': Work)
    requires Acyclic(g) && OnTheWay(g, t, r, i, w) && w.visited < |w.gen|
    requires parents == ParentTypes(g, w.gen[w.visited])
    ensures OnTheWay(g, t, r + parents, i + 1, w')
    ensures w'.n == w.n && |w'.gen| - w'.visited < |w.gen| - w.visited
  {
    AppendedNext(g, w.gen, w.visited, w.n);
    w' := w.(visited := w.visited + 1, after := w.after + parents);
  }

  lemma WorkEnds(g: Graph, t: TypeName, r: seq<TypeName>, w: Work)
    requires Acyclic(g) && OnTheWay(g, t, r, |r|, w)
    ensures r == ParentTypes(g, t)
  {
    if w.gen != [] {
      AllAppended(g, w.gen, w.n, w.after);
      assert w.after == [];
    }
  }

  /** `getParentTypes`: the loop visits what it appends. */
  method GetParentTypes(g: Graph, typeName: TypeName) returns (r: seq<TypeName>)
    requires Acyclic(g)
    ensures r == ParentTypes(g, typeName)
    decreases Height(g, typeName)
  {
    var extendsArr := Extends(g, typeName);
    if |extendsArr| == 0 {
      return [];
    }
    r := extendsArr;
    var i := 0;
    ghost var w := WorkStarts(g, typeName);
    while i < |r|
      invariant OnTheWay(g, typeName, r, i, w)
      decreases w.n, |w.gen| - w.visited
    {
      if w.visited == |w.gen| {
        w := NextWork(g, typeName, r, i, w);
      }
      NextIsPending(g, typeName, r, i, w);
      var parents := GetParentTypes(g, r[i]);
      w := VisitNext(g, typeName, r, i, w, parents);
      r := r + parents;
      i := i + 1;
    }
    WorkEnds(g, typeName, r, w);
  }
}
