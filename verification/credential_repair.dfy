/**
 Repairing the credential references of a workflow: references by bare name, or
 by an id that no longer exists, are resolved by name within the project. The
 loop caches what it looked up, per credential type.
 */
module CredentialRepair {
  import opened Basics

  /** `INodeCredentialsDetails`. */
  datatype Details = Details(id: Option<string>, name: string)

  datatype Reference =
    | Absent                      // null or undefined
    | Managed(details: Details)   // managed by the AI gateway
    | BareName(name: string)      // the old format
    | ByDetails(details: Details)
    | Inherited(key: string)      // a member every JavaScript object has

  datatype Slot = Slot(credType: string, reference: Reference)

  /** `credentials` is absent for a node without any; its slots are in key order. */
  datatype Node = Node(disabled: bool, credentials: Option<seq<Slot>>)

  /** A stored credential; `inProject` says whether it is shared with the workflow's project. */
  datatype Row = Row(name: string, credType: string, inProject: bool)

  /** The database, the credential types that are never looked up, and the names of the members every object has. */
  datatype Env = Env(rows: map<string, Row>, unsafeTypes: set<string>, objectMembers: set<string>)

  function FindById(env: Env, id: string, credType: string): Option<Details> {
    if id in env.rows && env.rows[id].credType == credType then Some(Details(Some(id), env.rows[id].name)) else None
  }

  function FindByName(env: Env, name: string, credType: string): set<string> {
    set id | id in env.rows && env.rows[id] == Row(name, credType, true)
  }

  /** The credential of that name and type, if there is exactly one in the project. */
  ghost function Unique(env: Env, name: string, credType: string): Option<Details> {
    var ids := FindByName(env, name, credType);
    if |ids| == 1 then
      var id :| id in ids;
      Some(Details(Some(id), name))
    else None
  }

  // ---- resolving one reference by itself ----

  /** The slot is skipped: it keeps its reference. */
  predicate Skipped(env: Env, s: Slot) {
    s.credType in env.unsafeTypes || s.reference.Absent? || s.reference.Managed? || s.reference.Inherited?
  }

  /** A reference without an id. */
  predicate OldStyle(r: Reference) {
    r.BareName? || (r.ByDetails? && r.details.id.None?)
  }

  function NameOf(r: Reference): string
    requires r.BareName? || r.ByDetails?
  {
    if r.BareName? then r.name else r.details.name
  }

  ghost function Fresh(env: Env, s: Slot): Reference {
    if Skipped(env, s) then s.reference
    else
      var byName := Unique(env, NameOf(s.reference), s.credType);
      var byId := if OldStyle(s.reference) then None else FindById(env, s.reference.details.id.value, s.credType);
      if byId.Some? then ByDetails(byId.value)
      else if byName.Some? then ByDetails(byName.value)
      else s.reference
  }

  /** A bare name and details without an id say the same. */
  function Normal(r: Reference): Reference {
    if r.BareName? then ByDetails(Details(None, r.name)) else r
  }

  // ---- what a lookup finds ----

  /** `id` is the one credential of that name and type that is shared with the workflow's project. */
  predicate OnlyOne(env: Env, id: string, name: string, credType: string) {
    && id in env.rows && env.rows[id] == Row(name, credType, true)
    && forall other :: other in env.rows && env.rows[other] == Row(name, credType, true) ==> other == id
  }

  lemma SingletonsAgree(ids: set<string>, a: string, b: string)
    requires |ids| == 1 && a in ids && b in ids
    ensures a == b
  {
    assert |ids - {a}| == 0;
    assert b !in ids - {a};
  }

  lemma UniqueIff(env: Env, name: string, credType: string, id: string)
    ensures Unique(env, name, credType) == Some(Details(Some(id), name)) <==> OnlyOne(env, id, name, credType)
  {
    var ids := FindByName(env, name, credType);
    if OnlyOne(env, id, name, credType) {
      assert ids == {id};
    }
    if Unique(env, name, credType) == Some(Details(Some(id), name)) {
      forall other | other in env.rows && env.rows[other] == Row(name, credType, true)
        ensures other == id
      {
        SingletonsAgree(ids, other, id);
      }
    }
  }

  /** Two credentials of one name and type in the project are as good as none. */
  lemma UniqueNoneIff(env: Env, name: string, credType: string)
    ensures Unique(env, name, credType).None? <==>
      || (forall id :: id in env.rows ==> env.rows[id] != Row(name, credType, true))
      || exists a, b :: a != b && a in env.rows && b in env.rows && env.rows[a] == env.rows[b] == Row(name, credType, true)
  {
    var ids := FindByName(env, name, credType);
    if Unique(env, name, credType).Some? {
      UniqueIff(env, name, credType, Unique(env, name, credType).value.id.value);
    } else if id :| id in ids {
      assert |ids - {id}| == |ids| - 1;
      assert |ids| != 1;
      var other :| other in ids - {id};
      assert env.rows[id] == env.rows[other];
    } else {
      assert forall id :: id in env.rows && env.rows[id] == Row(name, credType, true) ==> id in ids;
    }
  }

  /**
   What resolving a reference by itself means, in terms of the database alone: a
   reference by the id of a stored credential of its type gets that credential's
   name; any other the one credential of its name and type in the project; it
   stays if there is none, or several, or if it is never looked up.
   */
  lemma FreshMeans(env: Env, s: Slot, id: string)
    ensures s.credType in env.unsafeTypes ==> Fresh(env, s) == s.reference
    ensures !s.reference.BareName? && !s.reference.ByDetails? ==> Fresh(env, s) == s.reference
    ensures s.credType !in env.unsafeTypes && s.reference.ByDetails? && s.reference.details.id == Some(id) &&
            id in env.rows && env.rows[id].credType == s.credType ==>
      Fresh(env, s) == ByDetails(Details(Some(id), env.rows[id].name))
    ensures s.credType !in env.unsafeTypes && Unknown(env, s) && OnlyOne(env, id, NameOf(s.reference), s.credType) ==>
      Fresh(env, s) == ByDetails(Details(Some(id), NameOf(s.reference)))
    ensures Unknown(env, s) && (forall any :: !OnlyOne(env, any, NameOf(s.reference), s.credType)) ==>
      Fresh(env, s) == s.reference
  {
    if Unknown(env, s) {
      var name := NameOf(s.reference);
      UniqueIff(env, name, s.credType, id);
      if Unique(env, name, s.credType).Some? {
        UniqueIff(env, name, s.credType, Unique(env, name, s.credType).value.id.value);
      }
    }
  }

  /** A reference by name, without an id or with one that no stored credential of its type has. */
  predicate Unknown(env: Env, s: Slot) {
    || s.reference.BareName?
    || (s.reference.ByDetails? &&
         match s.reference.details.id
         case None => true
         case Some(id) => id !in env.rows || env.rows[id].credType != s.credType)
  }

  // ---- the loop with its caches ----

  datatype Cache = Cache(byName: map<(string, string), Details>, byId: map<(string, string), Details>)

  ghost function Visit(env: Env, cache: Cache, s: Slot): (Cache, Reference) {
    if Skipped(env, s) then (cache, s.reference)
    else if OldStyle(s.reference) then
      var name := NameOf(s.reference);
      var key := (s.credType, name);
      if key in cache.byName then (cache, ByDetails(cache.byName[key]))
      else if name in env.objectMembers then (cache, Inherited(name))
      else
        var found := Unique(env, name, s.credType);
        if found.Some? then (cache.(byName := cache.byName[key := found.value]), ByDetails(found.value))
        else (cache.(byName := cache.byName[key := Details(None, name)]), s.reference)
    else
      var details := s.reference.details;
      var key := (s.credType, details.id.value);
      if key in cache.byId then (cache, ByDetails(cache.byId[key]))
      else if details.id.value in env.objectMembers then (cache, Inherited(details.id.value))
      else
        var byId := FindById(env, details.id.value, s.credType);
        var byName := Unique(env, details.name, s.credType);
        if byId.Some? then (cache.(byId := cache.byId[key := byId.value]), ByDetails(byId.value))
        else if byName.Some? then
          (cache.(byId := cache.byId[(s.credType, byName.value.id.value) := byName.value]), ByDetails(byName.value))
        else (cache.(byId := cache.byId[key := details]), s.reference)
  }

  /** The caches once the first `n` of the slots have been visited. */
  ghost function CacheAfter(env: Env, slots: seq<Slot>, n: nat): Cache
    requires n <= |slots|
  {
    if n == 0 then Cache(map[], map[]) else Visit(env, CacheAfter(env, slots, n - 1), slots[n - 1]).0
  }

  /** What the loop makes of the slot at position `k` of all slots it visits. */
  ghost function Repaired(env: Env, slots: seq<Slot>, k: nat): Reference
    requires k < |slots|
  {
    Visit(env, CacheAfter(env, slots, k), slots[k]).1
  }

  // ---- when the cached loop agrees with resolving each reference afresh ----

  /** A reference whose id is unknown and whose name does not help either. */
  ghost predicate Lost(env: Env, s: Slot) {
    && !Skipped(env, s) && !OldStyle(s.reference)
    && s.reference.details.id.value !in env.objectMembers
    && FindById(env, s.reference.details.id.value, s.credType).None?
    && Unique(env, s.reference.details.name, s.credType).None?
  }

  predicate SameId(s: Slot, credType: string, id: string) {
    s.credType == credType && s.reference.ByDetails? && s.reference.details.id == Some(id)
  }

  /** The first lost reference to `id` among the first `n` slots. */
  ghost function FirstLost(env: Env, slots: seq<Slot>, n: nat, credType: string, id: string): Option<Details>
    requires n <= |slots|
  {
    if n == 0 then None
    else
      var earlier := FirstLost(env, slots, n - 1, credType, id);
      var last := slots[n - 1];
      if earlier.Some? then earlier
      else if SameId(last, credType, id) && Lost(env, last) then Some(last.reference.details)
      else None
  }

  ghost predicate NamesValid(env: Env, cache: Cache) {
    forall key :: key in cache.byName ==>
      && key.1 !in env.objectMembers
      && cache.byName[key] ==
           var found := Unique(env, key.1, key.0); if found.Some? then found.value else Details(None, key.1)
  }

  ghost predicate IdsValid(env: Env, cache: Cache) {
    forall key :: key in cache.byId && FindById(env, key.1, key.0).Some? ==>
      cache.byId[key] == FindById(env, key.1, key.0).value
  }

  function CachedId(cache: Cache, credType: string, id: string): Option<Details> {
    if (credType, id) in cache.byId then Some(cache.byId[(credType, id)]) else None
  }

  ghost predicate LostValid(env: Env, slots: seq<Slot>, n: nat, cache: Cache)
    requires n <= |slots|
  {
    forall credType, id :: FindById(env, id, credType).None? ==>
      FirstLost(env, slots, n, credType, id) == CachedId(cache, credType, id)
  }

  ghost predicate CacheValid(env: Env, slots: seq<Slot>, n: nat, cache: Cache)
    requires n <= |slots|
  {
    NamesValid(env, cache) && IdsValid(env, cache) && LostValid(env, slots, n, cache)
  }

  /** Ids are generated, so none is the name of a member that every object has. */
  ghost predicate GeneratedIds(env: Env) {
    forall id :: id in env.rows ==> id !in env.objectMembers
  }

  lemma UniqueIsFound(env: Env, name: string, credType: string)
    requires Unique(env, name, credType).Some?
    ensures var d := Unique(env, name, credType).value;
      d.id.Some? && d.name == name && FindById(env, d.id.value, credType) == Some(d)
  {
    var d := Unique(env, name, credType).value;
    assert d.id.value in FindByName(env, name, credType);
  }

  lemma {:induction false} FirstLostIsLost(env: Env, slots: seq<Slot>, n: nat, credType: string, id: string)
    requires n <= |slots| && FirstLost(env, slots, n, credType, id).Some?
    ensures var d := FirstLost(env, slots, n, credType, id).value;
      && d.id == Some(id) && id !in env.objectMembers
      && FindById(env, id, credType).None? && Unique(env, d.name, credType).None?
  {
    if FirstLost(env, slots, n - 1, credType, id).Some? {
      FirstLostIsLost(env, slots, n - 1, credType, id);
    }
  }

  lemma VisitKeepsNames(env: Env, cache: Cache, s: Slot)
    requires NamesValid(env, cache)
    ensures NamesValid(env, Visit(env, cache, s).0)
  {
  }

  lemma VisitKeepsIds(env: Env, cache: Cache, s: Slot)
    requires IdsValid(env, cache)
    ensures IdsValid(env, Visit(env, cache, s).0)
  {
    if !Skipped(env, s) && Unique(env, NameOf(s.reference), s.credType).Some? {
      UniqueIsFound(env, NameOf(s.reference), s.credType);
    }
  }

  lemma VisitKeepsLost(env: Env, slots: seq<Slot>, n: nat, cache: Cache)
    requires n < |slots| && LostValid(env, slots, n, cache)
    ensures LostValid(env, slots, n + 1, Visit(env, cache, slots[n]).0)
  {
    var s := slots[n];
    if !Skipped(env, s) && Unique(env, NameOf(s.reference), s.credType).Some? {
      UniqueIsFound(env, NameOf(s.reference), s.credType);
    }
    forall credType, id | FindById(env, id, credType).None?
      ensures FirstLost(env, slots, n + 1, credType, id) == CachedId(Visit(env, cache, s).0, credType, id)
    {
      assert FirstLost(env, slots, n, credType, id) == CachedId(cache, credType, id);
    }
  }

  lemma VisitKeepsValid(env: Env, slots: seq<Slot>, n: nat, cache: Cache)
    requires GeneratedIds(env) && n < |slots| && CacheValid(env, slots, n, cache)
    ensures CacheValid(env, slots, n + 1, Visit(env, cache, slots[n]).0)
  {
    VisitKeepsNames(env, cache, slots[n]);
    VisitKeepsIds(env, cache, slots[n]);
    VisitKeepsLost(env, slots, n, cache);
  }

  lemma {:induction false} CacheAfterValid(env: Env, slots: seq<Slot>, n: nat)
    requires GeneratedIds(env) && n <= |slots|
    ensures CacheValid(env, slots, n, CacheAfter(env, slots, n))
  {
    if n > 0 {
      CacheAfterValid(env, slots, n - 1);
      VisitKeepsValid(env, slots, n - 1, CacheAfter(env, slots, n - 1));
      assert CacheAfter(env, slots, n) == Visit(env, CacheAfter(env, slots, n - 1), slots[n - 1]).0;
    }
  }

  /** The reference is not shadowed by an object member when the caches are consulted. */
  predicate Plain(env: Env, s: Slot) {
    Skipped(env, s) ||
    (if OldStyle(s.reference) then NameOf(s.reference) else s.reference.details.id.value) !in env.objectMembers
  }

  /** The visited slot `k` gets what it would get by itself. */
  ghost predicate RepairedAsFresh(env: Env, slots: seq<Slot>, k: nat)
    requires k < |slots|
  {
    Normal(Repaired(env, slots, k)) == Normal(Fresh(env, slots[k]))
  }

  ghost predicate SlotAgrees(env: Env, slots: seq<Slot>, k: nat)
    requires k < |slots|
  {
    var s := slots[k];
    Plain(env, s) &&
    (!Skipped(env, s) && !OldStyle(s.reference) ==>
      FirstLost(env, slots, k, s.credType, s.reference.details.id.value) in {None, Some(s.reference.details)})
  }

  lemma RepairedAsFreshIff(env: Env, slots: seq<Slot>, k: nat)
    requires GeneratedIds(env) && k < |slots|
    ensures RepairedAsFresh(env, slots, k) <==> SlotAgrees(env, slots, k)
  {
    var s := slots[k];
    CacheAfterValid(env, slots, k);
    if !Skipped(env, s) {
      if Unique(env, NameOf(s.reference), s.credType).Some? {
        UniqueIsFound(env, NameOf(s.reference), s.credType);
      }
      if !OldStyle(s.reference) {
        var id := s.reference.details.id.value;
        if FirstLost(env, slots, k, s.credType, id).Some? {
          FirstLostIsLost(env, slots, k, s.credType, id);
        }
      }
    }
  }

  /**
   References that share a lost id also share the name, and no looked-up name
   or id is that of an object member.
   */
  ghost predicate Consistent(env: Env, slots: seq<Slot>) {
    && (forall k :: 0 <= k < |slots| ==> Plain(env, slots[k]))
    && (forall i, j :: 0 <= i < j < |slots| && Lost(env, slots[i]) && SharesId(env, slots[i], slots[j]) ==>
          slots[j].reference.details.name == slots[i].reference.details.name)
  }

  ghost predicate SharesId(env: Env, lost: Slot, s: Slot)
    requires Lost(env, lost)
  {
    !Skipped(env, s) && SameId(s, lost.credType, lost.reference.details.id.value)
  }

  lemma {:induction false} FirstLostHasIndex(env: Env, slots: seq<Slot>, n: nat, credType: string, id: string)
    returns (i: nat)
    requires n <= |slots| && FirstLost(env, slots, n, credType, id).Some?
    ensures i < n && Lost(env, slots[i]) && SameId(slots[i], credType, id)
    ensures FirstLost(env, slots, n, credType, id) == Some(slots[i].reference.details)
  {
    if FirstLost(env, slots, n - 1, credType, id).Some? {
      i := FirstLostHasIndex(env, slots, n - 1, credType, id);
    } else {
      i := n - 1;
    }
  }

  lemma {:induction false} FirstLostPersists(env: Env, slots: seq<Slot>, k: nat, n: nat, credType: string, id: string)
    requires k <= n <= |slots| && FirstLost(env, slots, k, credType, id).Some?
    ensures FirstLost(env, slots, n, credType, id) == FirstLost(env, slots, k, credType, id)
  {
    if k < n {
      FirstLostPersists(env, slots, k, n - 1, credType, id);
    }
  }

  lemma ConsistentAgrees(env: Env, slots: seq<Slot>, k: nat)
    requires k < |slots| && Consistent(env, slots)
    ensures SlotAgrees(env, slots, k)
  {
    var s := slots[k];
    if !Skipped(env, s) && !OldStyle(s.reference) {
      var id := s.reference.details.id.value;
      if FirstLost(env, slots, k, s.credType, id).Some? {
        var i := FirstLostHasIndex(env, slots, k, s.credType, id);
        assert SharesId(env, slots[i], s);
      }
    }
  }

  lemma AgreeingSharesName(env: Env, slots: seq<Slot>, i: nat, j: nat)
    requires i < j < |slots| && SlotAgrees(env, slots, i) && SlotAgrees(env, slots, j)
    requires Lost(env, slots[i]) && SharesId(env, slots[i], slots[j])
    ensures slots[j].reference.details == slots[i].reference.details
  {
    var credType, id := slots[i].credType, slots[i].reference.details.id.value;
    assert FirstLost(env, slots, i + 1, credType, id) == Some(slots[i].reference.details);
    FirstLostPersists(env, slots, i + 1, j, credType, id);
  }

  /**
   The cached loop gives every visited slot the credentials it would get by
   itself exactly when the references are consistent.
   */
  lemma RepairIsFreshIffConsistent(env: Env, slots: seq<Slot>)
    requires GeneratedIds(env)
    ensures (forall k :: 0 <= k < |slots| ==> RepairedAsFresh(env, slots, k)) <==> Consistent(env, slots)
  {
    forall k | 0 <= k < |slots|
      ensures RepairedAsFresh(env, slots, k) <==> SlotAgrees(env, slots, k)
    {
      RepairedAsFreshIff(env, slots, k);
    }
    if Consistent(env, slots) {
      forall k | 0 <= k < |slots|
        ensures SlotAgrees(env, slots, k)
      {
        ConsistentAgrees(env, slots, k);
      }
    }
    if forall k :: 0 <= k < |slots| ==> SlotAgrees(env, slots, k) {
      forall k | 0 <= k < |slots|
        ensures Plain(env, slots[k])
      {
        assert SlotAgrees(env, slots, k);
      }
      forall i, j | 0 <= i < j < |slots| && Lost(env, slots[i]) && SharesId(env, slots[i], slots[j])
        ensures slots[j].reference.details.name == slots[i].reference.details.name
      {
        AgreeingSharesName(env, slots, i, j);
      }
    }
  }

  function Named(credType: string, id: string, name: string): Slot {
    Slot(credType, ByDetails(Details(Some(id), name)))
  }

  /** Two nodes that refer to the same deleted credential by different names end up with the first name. */
  lemma DifferentNamesAreOverwritten(env: Env, credType: string, id: string, first: string, second: string)
    requires GeneratedIds(env) && env.rows == map[] && credType !in env.unsafeTypes && id !in env.objectMembers
    requires first != second
    ensures var slots := [Named(credType, id, first), Named(credType, id, second)];
      Repaired(env, slots, 1) == ByDetails(Details(Some(id), first)) && !RepairedAsFresh(env, slots, 1)
  {
    var slots := [Named(credType, id, first), Named(credType, id, second)];
    assert FindByName(env, first, credType) == {} && FindByName(env, second, credType) == {};
    assert CacheAfter(env, slots, 1).byId == map[(credType, id) := Details(Some(id), first)];
  }

  /**
   A credential called like a member of every object, such as `toString`, is
   replaced by that member, wherever its reference is visited.
   */
  lemma MemberNameIsLost(env: Env, slots: seq<Slot>, k: nat, name: string)
    requires GeneratedIds(env) && k < |slots| && name in env.objectMembers
    requires slots[k].credType !in env.unsafeTypes && slots[k].reference == BareName(name)
    ensures Repaired(env, slots, k) == Inherited(name) && !RepairedAsFresh(env, slots, k)
  {
    CacheAfterValid(env, slots, k);
  }

  /** The same for an id called like a member of every object. */
  lemma MemberIdIsLost(env: Env, slots: seq<Slot>, k: nat, id: string)
    requires GeneratedIds(env) && k < |slots| && id in env.objectMembers && slots[k].credType !in env.unsafeTypes
    requires slots[k].reference.ByDetails? && slots[k].reference.details.id == Some(id)
    ensures Repaired(env, slots, k) == Inherited(id)
  {
    CacheAfterValid(env, slots, k);
    if FirstLost(env, slots, k, slots[k].credType, id).Some? {
      FirstLostIsLost(env, slots, k, slots[k].credType, id);
    }
  }

  /** A visit remembers the name that it looked up, and the id that it has not found. */
  lemma VisitRemembers(env: Env, cache: Cache, s: Slot)
    requires !Skipped(env, s) && Plain(env, s)
    ensures OldStyle(s.reference) ==> (s.credType, NameOf(s.reference)) in Visit(env, cache, s).0.byName
    ensures Lost(env, s) ==> (s.credType, s.reference.details.id.value) in Visit(env, cache, s).0.byId
  {
  }

  lemma VisitForgetsNothing(env: Env, cache: Cache, s: Slot, key: (string, string))
    ensures key in cache.byName ==> key in Visit(env, cache, s).0.byName
    ensures key in cache.byId ==> key in Visit(env, cache, s).0.byId
  {
  }

  lemma {:induction false} CacheGrows(env: Env, slots: seq<Slot>, k: nat, n: nat, key: (string, string))
    requires k <= n <= |slots|
    ensures key in CacheAfter(env, slots, k).byName ==> key in CacheAfter(env, slots, n).byName
    ensures key in CacheAfter(env, slots, k).byId ==> key in CacheAfter(env, slots, n).byId
  {
    if k < n {
      CacheGrows(env, slots, k, n - 1, key);
      VisitForgetsNothing(env, CacheAfter(env, slots, n - 1), slots[n - 1], key);
    }
  }

  /**
   What the caches are for: a name, also one that resolves to nothing, is looked
   up for the first reference only, and so is an id that resolves to nothing.
   */
  lemma LookedUpOnce(env: Env, slots: seq<Slot>, i: nat, k: nat)
    requires i < k < |slots| && !Skipped(env, slots[i]) && Plain(env, slots[i])
    requires slots[k].credType == slots[i].credType
    ensures OldStyle(slots[i].reference) ==>
      (slots[i].credType, NameOf(slots[i].reference)) in CacheAfter(env, slots, k).byName
    ensures Lost(env, slots[i]) ==>
      (slots[i].credType, slots[i].reference.details.id.value) in CacheAfter(env, slots, k).byId
  {
    var s := slots[i];
    VisitRemembers(env, CacheAfter(env, slots, i), s);
    if OldStyle(s.reference) {
      CacheGrows(env, slots, i + 1, k, (s.credType, NameOf(s.reference)));
    } else {
      CacheGrows(env, slots, i + 1, k, (s.credType, s.reference.details.id.value));
    }
  }

  // ---- the nodes of a workflow ----

  function Slots(node: Node): seq<Slot> {
    if node.disabled || node.credentials.None? then [] else node.credentials.value
  }

  /** The slots the loop visits in the first `i` nodes, in order. */
  function VisitedUpTo(nodes: seq<Node>, i: nat): seq<Slot>
    requires i <= |nodes|
  {
    if i == 0 then [] else VisitedUpTo(nodes, i - 1) + Slots(nodes[i - 1])
  }

  function Visited(nodes: seq<Node>): seq<Slot> {
    VisitedUpTo(nodes, |nodes|)
  }

  /** The number of slots visited before node `i`. */
  function Offset(nodes: seq<Node>, i: nat): nat
    requires i <= |nodes|
  {
    |VisitedUpTo(nodes, i)|
  }

  /** `after` is `before` with its slots filled from `refs`, from `offset` on. */
  ghost predicate NodeShows(refs: seq<Reference>, offset: nat, before: Node, after: Node) {
    && after.disabled == before.disabled
    && (Slots(before) == [] ==> after == before)
    && |Slots(after)| == |Slots(before)| && offset + |Slots(before)| <= |refs|
    && forall k :: 0 <= k < |Slots(before)| ==> Slots(after)[k] == Slot(Slots(before)[k].credType, refs[offset + k])
  }

  ghost predicate NodesShow(refs: seq<Reference>, before: seq<Node>, after: seq<Node>) {
    && |after| == |before| && |refs| == |Visited(before)|
    && forall i {:trigger after[i]} :: 0 <= i < |before| ==> NodeShows(refs, Offset(before, i), before[i], after[i])
  }

  lemma {:induction false} VisitedPrefix(nodes: seq<Node>, i: nat, j: nat)
    requires i <= j <= |nodes|
    ensures VisitedUpTo(nodes, i) <= VisitedUpTo(nodes, j)
  {
    if i < j {
      VisitedPrefix(nodes, i, j - 1);
    }
  }

  /** Slot `k` of node `i` is visited after those of the nodes before it. */
  lemma VisitedAt(nodes: seq<Node>, i: nat, k: nat)
    requires i < |nodes| && k < |Slots(nodes[i])|
    ensures Offset(nodes, i) + k < |Visited(nodes)|
    ensures Visited(nodes)[Offset(nodes, i) + k] == Slots(nodes[i])[k]
  {
    VisitedPrefix(nodes, i + 1, |nodes|);
    assert VisitedUpTo(nodes, i + 1)[Offset(nodes, i) + k] == Slots(nodes[i])[k];
  }

  lemma {:induction false} VisitedLocated(nodes: seq<Node>, n: nat, p: nat) returns (i: nat, k: nat)
    requires n <= |nodes| && p < Offset(nodes, n)
    ensures i < n && k < |Slots(nodes[i])| && p == Offset(nodes, i) + k
  {
    if p < Offset(nodes, n - 1) {
      i, k := VisitedLocated(nodes, n - 1, p);
    } else {
      i, k := n - 1, p - Offset(nodes, n - 1);
    }
  }

  ghost function RepairedAll(env: Env, slots: seq<Slot>): (refs: seq<Reference>)
    ensures |refs| == |slots| && forall k :: 0 <= k < |slots| ==> refs[k] == Repaired(env, slots, k)
  {
    seq(|slots|, k requires 0 <= k < |slots| => Repaired(env, slots, k))
  }

  /** `after` are the nodes `before` as the cached loop leaves them. */
  ghost predicate NodesRepaired(env: Env, before: seq<Node>, after: seq<Node>) {
    NodesShow(RepairedAll(env, Visited(before)), before, after)
  }

  /** Every node has the credentials that resolving each of its references afresh gives. */
  ghost predicate NodesFresh(env: Env, before: seq<Node>, after: seq<Node>)
    requires |after| == |before|
  {
    forall i {:trigger after[i]} :: 0 <= i < |before| ==> NodeFresh(env, before[i], after[i])
  }

  ghost predicate NodeFresh(env: Env, before: Node, after: Node) {
    && |Slots(after)| == |Slots(before)|
    && forall k :: 0 <= k < |Slots(before)| ==>
         Normal(Slots(after)[k].reference) == Normal(Fresh(env, Slots(before)[k]))
  }

  /** The references `refs` are those that resolving each slot afresh gives. */
  ghost predicate RefsFresh(env: Env, slots: seq<Slot>, refs: seq<Reference>)
    requires |refs| == |slots|
  {
    forall p :: 0 <= p < |slots| ==> Normal(refs[p]) == Normal(Fresh(env, slots[p]))
  }

  lemma RefsToNodes(env: Env, refs: seq<Reference>, before: seq<Node>, after: seq<Node>)
    requires NodesShow(refs, before, after) && RefsFresh(env, Visited(before), refs)
    ensures NodesFresh(env, before, after)
  {
    forall i | 0 <= i < |before|
      ensures NodeFresh(env, before[i], after[i])
    {
      forall k | 0 <= k < |Slots(before[i])|
        ensures Normal(Slots(after[i])[k].reference) == Normal(Fresh(env, Slots(before[i])[k]))
      {
        VisitedAt(before, i, k);
      }
    }
  }

  lemma NodesToRefs(env: Env, refs: seq<Reference>, before: seq<Node>, after: seq<Node>)
    requires NodesShow(refs, before, after) && NodesFresh(env, before, after)
    ensures RefsFresh(env, Visited(before), refs)
  {
    forall p | 0 <= p < |Visited(before)|
      ensures Normal(refs[p]) == Normal(Fresh(env, Visited(before)[p]))
    {
      var i, k := VisitedLocated(before, |before|, p);
      VisitedAt(before, i, k);
      assert NodeFresh(env, before[i], after[i]) && NodeShows(refs, Offset(before, i), before[i], after[i]);
    }
  }

  lemma RepairedAllFreshIff(env: Env, slots: seq<Slot>)
    ensures RefsFresh(env, slots, RepairedAll(env, slots)) <==>
      forall p :: 0 <= p < |slots| ==> RepairedAsFresh(env, slots, p)
  {
    forall p | 0 <= p < |slots|
      ensures RepairedAsFresh(env, slots, p) <==> Normal(RepairedAll(env, slots)[p]) == Normal(Fresh(env, slots[p]))
    {
    }
  }

  /**
   For every workflow and database: the cached loop gives all nodes the same
   credentials as resolving each reference afresh if and only if the visited
   references are consistent.
   */
  lemma WorkflowRepairedIff(env: Env, before: seq<Node>, after: seq<Node>)
    requires GeneratedIds(env) && NodesRepaired(env, before, after)
    ensures NodesFresh(env, before, after) <==> Consistent(env, Visited(before))
  {
    var refs := RepairedAll(env, Visited(before));
    RepairIsFreshIffConsistent(env, Visited(before));
    RepairedAllFreshIff(env, Visited(before));
    if RefsFresh(env, Visited(before), refs) {
      RefsToNodes(env, refs, before, after);
    }
    if NodesFresh(env, before, after) {
      NodesToRefs(env, refs, before, after);
    }
  }

  lemma RepairedSkips(env: Env, slots: seq<Slot>, p: nat)
    requires p < |slots| && Skipped(env, slots[p])
    ensures RepairedAll(env, slots)[p] == slots[p].reference
  {
  }

  /** Disabled nodes, nodes without credentials, and skipped references keep what they have. */
  lemma SkippedIsKept(env: Env, before: seq<Node>, after: seq<Node>, i: nat)
    requires NodesRepaired(env, before, after) && i < |before|
    ensures before[i].disabled || before[i].credentials.None? ==> after[i] == before[i]
    ensures |Slots(after[i])| == |Slots(before[i])|
    ensures forall k :: 0 <= k < |Slots(before[i])| && Skipped(env, Slots(before[i])[k]) ==>
      Slots(after[i])[k] == Slots(before[i])[k]
  {
    forall p | 0 <= p < |Visited(before)|
      ensures Skipped(env, Visited(before)[p]) ==> RepairedAll(env, Visited(before))[p] == Visited(before)[p].reference
    {
      if Skipped(env, Visited(before)[p]) {
        RepairedSkips(env, Visited(before), p);
      }
    }
    NodeKeepsSkipped(env, RepairedAll(env, Visited(before)), before, after, i);
  }

  lemma NodeKeepsSkipped(env: Env, refs: seq<Reference>, before: seq<Node>, after: seq<Node>, i: nat)
    requires NodesShow(refs, before, after) && i < |before|
    requires forall p :: 0 <= p < |refs| && Skipped(env, Visited(before)[p]) ==> refs[p] == Visited(before)[p].reference
    ensures before[i].disabled || before[i].credentials.None? ==> after[i] == before[i]
    ensures |Slots(after[i])| == |Slots(before[i])|
    ensures forall k :: 0 <= k < |Slots(before[i])| && Skipped(env, Slots(before[i])[k]) ==>
      Slots(after[i])[k] == Slots(before[i])[k]
  {
    assert NodeShows(refs, Offset(before, i), before[i], after[i]);
    forall k | 0 <= k < |Slots(before[i])| && Skipped(env, Slots(before[i])[k])
      ensures refs[Offset(before, i) + k] == Slots(before[i])[k].reference
    {
      VisitedAt(before, i, k);
    }
  }

  // ---- which credentials the loop hands out ----

  /**
   A reference whose id, if it has one, is unknown is given a stored credential
   only if that is the one of its name and type in the project.
   */
  ghost predicate Within(env: Env, s: Slot, after: Reference) {
    after.ByDetails? && after.details.id.Some? && after.details.id.value in env.rows && Unknown(env, s) &&
    !(s.reference.ByDetails? && s.reference.details.id == after.details.id) ==>
      after.details.name == NameOf(s.reference) &&
      (s.credType in env.unsafeTypes || OnlyOne(env, after.details.id.value, after.details.name, s.credType))
  }

  lemma RepairedWithin(env: Env, slots: seq<Slot>, k: nat)
    requires GeneratedIds(env) && k < |slots|
    ensures Within(env, slots[k], Repaired(env, slots, k))
  {
    var s, cache := slots[k], CacheAfter(env, slots, k);
    CacheAfterValid(env, slots, k);
    if !Skipped(env, s) {
      var name := NameOf(s.reference);
      if Unique(env, name, s.credType).Some? {
        UniqueIsFound(env, name, s.credType);
        UniqueIff(env, name, s.credType, Unique(env, name, s.credType).value.id.value);
      }
      if !OldStyle(s.reference) && FirstLost(env, slots, k, s.credType, s.reference.details.id.value).Some? {
        FirstLostIsLost(env, slots, k, s.credType, s.reference.details.id.value);
      }
    }
  }

  ghost predicate NodesWithin(env: Env, before: seq<Node>, after: seq<Node>) {
    |after| == |before| && forall i {:trigger after[i]} :: 0 <= i < |before| ==> NodeWithin(env, before[i], after[i])
  }

  lemma RepairedNodesWithin(env: Env, before: seq<Node>, after: seq<Node>)
    requires GeneratedIds(env) && NodesRepaired(env, before, after)
    ensures NodesWithin(env, before, after)
  {
    var all := Visited(before);
    var refs := RepairedAll(env, all);
    forall p | 0 <= p < |all|
      ensures Within(env, all[p], refs[p])
    {
      RepairedWithin(env, all, p);
    }
    forall i | 0 <= i < |before|
      ensures NodeWithin(env, before[i], after[i])
    {
      RefsToWithin(env, refs, before, after, i);
    }
  }

  ghost predicate NodeWithin(env: Env, before: Node, after: Node) {
    && |Slots(after)| == |Slots(before)|
    && forall k :: 0 <= k < |Slots(before)| ==> Within(env, Slots(before)[k], Slots(after)[k].reference)
  }

  lemma RefsToWithin(env: Env, refs: seq<Reference>, before: seq<Node>, after: seq<Node>, i: nat)
    requires NodesShow(refs, before, after) && i < |before|
    requires forall p :: 0 <= p < |refs| ==> Within(env, Visited(before)[p], refs[p])
    ensures NodeWithin(env, before[i], after[i])
  {
    assert NodeShows(refs, Offset(before, i), before[i], after[i]);
    forall k | 0 <= k < |Slots(before[i])|
      ensures Within(env, Slots(before[i])[k], Slots(after[i])[k].reference)
    {
      VisitedAt(before, i, k);
    }
  }

  // ---- replaceInvalidCredentials ----

  /** `findByNameAndTypeInProject`, used only if it finds exactly one. */
  method QueryByName(env: Env, name: string, credType: string) returns (found: Option<Details>)
    ensures found == Unique(env, name, credType)
    ensures forall id :: found == Some(Details(Some(id), name)) <==>
      && id in env.rows && env.rows[id] == Row(name, credType, true)
      && forall other :: other in env.rows && env.rows[other] == Row(name, credType, true) ==> other == id
    ensures found.None? <==>
      || (forall id :: id in env.rows ==> env.rows[id] != Row(name, credType, true))
      || exists a, b :: a != b && a in env.rows && b in env.rows && env.rows[a] == env.rows[b] == Row(name, credType, true)
  {
    forall id
      ensures Unique(env, name, credType) == Some(Details(Some(id), name)) <==> OnlyOne(env, id, name, credType)
    {
      UniqueIff(env, name, credType, id);
    }
    UniqueNoneIff(env, name, credType);
    var ids := FindByName(env, name, credType);
    found := None;
    if |ids| == 1 {
      var id :| id in ids;
      found := Some(Details(Some(id), name));
      SingletonsAgree(ids, id, Unique(env, name, credType).value.id.value);
    }
  }

  method RepairSlot(env: Env, cache: Cache, s: Slot) returns (cache': Cache, r: Reference)
    ensures (cache', r) == Visit(env, cache, s)
  {
    cache', r := cache, s.reference;
    if s.credType in env.unsafeTypes || s.reference.Absent? || s.reference.Managed? || s.reference.Inherited? {
      return;
    }
    if s.reference.BareName? || s.reference.details.id == None {
      var name := if s.reference.BareName? then s.reference.name else s.reference.details.name;
      var key := (s.credType, name);
      if key in cache.byName {
        r := ByDetails(cache.byName[key]);
      } else if name in env.objectMembers {
        r := Inherited(name);
      } else {
        var credentials := QueryByName(env, name, s.credType);
        if credentials.Some? {
          cache' := cache.(byName := cache.byName[key := credentials.value]);
          r := ByDetails(credentials.value);
        } else {
          cache' := cache.(byName := cache.byName[key := Details(None, name)]);
        }
      }
      return;
    }
    var details := s.reference.details;
    var key := (s.credType, details.id.value);
    if key in cache.byId {
      r := ByDetails(cache.byId[key]);
    } else if details.id.value in env.objectMembers {
      r := Inherited(details.id.value);
    } else {
      var credentials := FindById(env, details.id.value, s.credType);
      if credentials.Some? {
        cache' := cache.(byId := cache.byId[key := credentials.value]);
        r := ByDetails(credentials.value);
      } else {
        var credsByName := QueryByName(env, details.name, s.credType);
        if credsByName.Some? {
          cache' := cache.(byId := cache.byId[(s.credType, credsByName.value.id.value) := credsByName.value]);
          r := ByDetails(credsByName.value);
        } else {
          cache' := cache.(byId := cache.byId[key := details]);
        }
      }
    }
  }

  /** The caches before each visit of the slots `all`, and what each visit makes of its slot. */
  ghost predicate Visits(env: Env, all: seq<Slot>, caches: seq<Cache>, refs: seq<Reference>) {
    && |caches| == |all| + 1 && |refs| == |all| && caches[0] == Cache(map[], map[])
    && forall n {:trigger Visit(env, caches[n], all[n])} :: 0 <= n < |all| ==>
         Visit(env, caches[n], all[n]) == (caches[n + 1], refs[n])
  }

  lemma VisitsExist(env: Env, all: seq<Slot>) returns (caches: seq<Cache>)
    ensures Visits(env, all, caches, RepairedAll(env, all))
  {
    caches := seq(|all| + 1, n requires 0 <= n <= |all| => CacheAfter(env, all, n));
  }

  /** The inner loop: the slots of one node, which follow `offset` visited slots of `all`. */
  method RepairSlots(env: Env, cache: Cache, slots: seq<Slot>,
      ghost all: seq<Slot>, ghost caches: seq<Cache>, ghost refs: seq<Reference>, ghost offset: nat)
    returns (cache': Cache, slots': seq<Slot>)
    requires Visits(env, all, caches, refs)
    requires offset + |slots| <= |all| && forall k :: 0 <= k < |slots| ==> all[offset + k] == slots[k]
    requires cache == caches[offset]
    ensures cache' == caches[offset + |slots|]
    ensures |slots'| == |slots|
    ensures forall k :: 0 <= k < |slots| ==> slots'[k] == Slot(slots[k].credType, refs[offset + k])
  {
    cache', slots' := cache, slots;
    for k := 0 to |slots|
      invariant |slots'| == |slots| && cache' == caches[offset + k]
      invariant slots'[k..] == slots[k..]
      invariant forall j :: 0 <= j < k ==> slots'[j] == Slot(slots[j].credType, refs[offset + j])
    {
      assert slots'[k] == slots[k] == all[offset + k];
      assert Visit(env, caches[offset + k], all[offset + k]) == (caches[offset + k + 1], refs[offset + k]);
      var reference;
      cache', reference := RepairSlot(env, cache', slots'[k]);
      slots' := slots'[k := slots'[k].(reference := reference)];
    }
  }

  lemma FilledShows(refs: seq<Reference>, offset: nat, before: Node, slots: seq<Slot>)
    requires !before.disabled && before.credentials.Some?
    requires |slots| == |Slots(before)| && offset + |slots| <= |refs|
    requires forall k :: 0 <= k < |slots| ==> slots[k] == Slot(Slots(before)[k].credType, refs[offset + k])
    ensures NodeShows(refs, offset, before, before.(credentials := Some(slots)))
  {
    if Slots(before) == [] {
      assert slots == [];
    }
  }

  /** One turn of the outer loop, on a node whose slots follow `offset` visited slots of `all`. */
  method RepairNode(env: Env, cache: Cache, node: Node,
      ghost all: seq<Slot>, ghost caches: seq<Cache>, ghost refs: seq<Reference>, ghost offset: nat, ghost next: nat)
    returns (cache': Cache, node': Node)
    requires Visits(env, all, caches, refs)
    requires Laid(all, node, offset, next)
    requires cache == caches[offset]
    ensures NodeShows(refs, offset, node, node')
    ensures cache' == caches[next]
  {
    cache', node' := cache, node;
    if !node.disabled && node.credentials.Some? {
      var slots;
      cache', slots := RepairSlots(env, cache, node.credentials.value, all, caches, refs, offset);
      FilledShows(refs, offset, node, slots);
      node' := node.(credentials := Some(slots));
    }
  }

  /** The slots of `node` are those from `offset` to `next` of all visited ones. */
  predicate Laid(all: seq<Slot>, node: Node, offset: nat, next: nat) {
    && next == offset + |Slots(node)| <= |all|
    && forall k :: 0 <= k < |Slots(node)| ==> all[offset + k] == Slots(node)[k]
  }

  lemma NodeLaid(nodes: seq<Node>, i: nat)
    requires i < |nodes|
    ensures Laid(Visited(nodes), nodes[i], Offset(nodes, i), Offset(nodes, i + 1))
  {
    VisitedPrefix(nodes, i + 1, |nodes|);
    forall k | 0 <= k < |Slots(nodes[i])|
      ensures Visited(nodes)[Offset(nodes, i) + k] == Slots(nodes[i])[k]
    {
      VisitedAt(nodes, i, k);
    }
  }

  ghost predicate Layout(all: seq<Slot>, nodes: seq<Node>, offsets: seq<nat>) {
    && |offsets| == |nodes| + 1 && offsets[0] == 0
    && forall i {:trigger Laid(all, nodes[i], offsets[i], offsets[i + 1])} :: 0 <= i < |nodes| ==>
         Laid(all, nodes[i], offsets[i], offsets[i + 1])
  }

  lemma NodesAreLaid(nodes: seq<Node>, offsets: seq<nat>, i: nat)
    requires |offsets| == |nodes| + 1 && i < |nodes|
    requires offsets[i] == Offset(nodes, i) && offsets[i + 1] == Offset(nodes, i + 1)
    ensures Laid(Visited(nodes), nodes[i], offsets[i], offsets[i + 1])
  {
    NodeLaid(nodes, i);
  }

  function OffsetsOf(nodes: seq<Node>): (offsets: seq<nat>)
    ensures |offsets| == |nodes| + 1
    ensures forall i {:trigger offsets[i]} :: 0 <= i <= |nodes| ==> offsets[i] == Offset(nodes, i)
  {
    seq(|nodes| + 1, i requires 0 <= i <= |nodes| => Offset(nodes, i))
  }

  lemma LayoutExists(nodes: seq<Node>) returns (offsets: seq<nat>)
    ensures Layout(Visited(nodes), nodes, offsets)
    ensures forall i {:trigger offsets[i]} :: 0 <= i <= |nodes| ==> offsets[i] == Offset(nodes, i)
  {
    offsets := OffsetsOf(nodes);
    var all := Visited(nodes);
    forall i {:trigger Laid(all, nodes[i], offsets[i], offsets[i + 1])} | 0 <= i < |nodes|
      ensures Laid(all, nodes[i], offsets[i], offsets[i + 1])
    {
      NodesAreLaid(nodes, offsets, i);
    }
  }

  /** The nodes before `i` are filled from `refs`, the others are as before. */
  ghost predicate ShownUpTo(refs: seq<Reference>, offsets: seq<nat>, before: seq<Node>, now: seq<Node>, i: nat) {
    && i <= |before| == |now| < |offsets|
    && (forall j {:trigger now[j]} :: i <= j < |now| ==> now[j] == before[j])
    && (forall j {:trigger now[j]} :: 0 <= j < i ==> NodeShows(refs, offsets[j], before[j], now[j]))
  }

  lemma ShownUpToNext(refs: seq<Reference>, offsets: seq<nat>, before: seq<Node>, now: seq<Node>, i: nat, node: Node)
    requires ShownUpTo(refs, offsets, before, now, i) && i < |before| && NodeShows(refs, offsets[i], before[i], node)
    ensures ShownUpTo(refs, offsets, before, now[i := node], i + 1)
  {
    var next := now[i := node];
    forall j | 0 <= j < i + 1
      ensures NodeShows(refs, offsets[j], before[j], next[j])
    {
      if j < i {
        assert next[j] == now[j];
      }
    }
  }

  /** The outer loop. */
  method RepairNodes(env: Env, nodes: array<Node>,
      ghost all: seq<Slot>, ghost caches: seq<Cache>, ghost refs: seq<Reference>, ghost offsets: seq<nat>)
    requires Visits(env, all, caches, refs) && Layout(all, nodes[..], offsets)
    modifies nodes
    ensures ShownUpTo(refs, offsets, old(nodes[..]), nodes[..], nodes.Length)
  {
    var cache := Cache(map[], map[]);
    ghost var before := nodes[..];
    for i := 0 to nodes.Length
      invariant ShownUpTo(refs, offsets, before, nodes[..], i)
      invariant offsets[i] <= |all| && cache == caches[offsets[i]]
    {
      ghost var now := nodes[..];
      var node := nodes[i];
      assert node == now[i] == before[i];
      assert Laid(all, before[i], offsets[i], offsets[i + 1]);
      cache, node := RepairNode(env, cache, node, all, caches, refs, offsets[i], offsets[i + 1]);
      ShownUpToNext(refs, offsets, before, now, i, node);
      nodes[i] := node;
      assert nodes[..] == now[i := node];
    }
  }

  /** Each node gets what resolving its references afresh gives, exactly if the references are consistent. */
  method ReplaceInvalidCredentials(env: Env, nodes: array<Node>)
    requires GeneratedIds(env)
    modifies nodes
    ensures NodesRepaired(env, old(nodes[..]), nodes[..])
    ensures NodesFresh(env, old(nodes[..]), nodes[..]) <==> Consistent(env, Visited(old(nodes[..])))
    ensures NodesWithin(env, old(nodes[..]), nodes[..])
  {
    ghost var all, refs := Visited(nodes[..]), RepairedAll(env, Visited(nodes[..]));
    ghost var caches := VisitsExist(env, all);
    ghost var offsets := LayoutExists(nodes[..]);
    RepairNodes(env, nodes, all, caches, refs, offsets);
    ShownIsShow(refs, old(nodes[..]), nodes[..], offsets);
    WorkflowRepairedIff(env, old(nodes[..]), nodes[..]);
    RepairedNodesWithin(env, old(nodes[..]), nodes[..]);
  }

  lemma ShownIsShow(refs: seq<Reference>, before: seq<Node>, after: seq<Node>, offsets: seq<nat>)
    requires |offsets| == |before| + 1 && forall i :: 0 <= i <= |before| ==> offsets[i] == Offset(before, i)
    requires |refs| == |Visited(before)| && ShownUpTo(refs, offsets, before, after, |before|)
    ensures NodesShow(refs, before, after)
  {
  }
}
