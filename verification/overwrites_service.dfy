/** The service object: `overwriteData` and `resolvedTypes` are updated in place. */
module OverwritesService {
  import opened Basics
  import opened CredentialTypes
  import O = CredentialsOverwrites
  import A = ApplyOverwrite

  /** The settings row that all instances share; serialising and encrypting are exact round trips. */
  class Settings {
    var value: Option<O.Overwrites>

    constructor ()
      ensures value == None
    {
      value := None;
    }
  }

  class CredentialsOverwrites {
    const types: Graph
    const skipTypes: set<TypeName>
    const persistence: bool
    var overwriteData: O.Overwrites
    var resolvedTypes: seq<TypeName>

    constructor (types: Graph, skipTypes: set<TypeName>, persistence: bool)
      ensures this.types == types && this.skipTypes == skipTypes && this.persistence == persistence
      ensures overwriteData == map[] && resolvedTypes == []
    {
      this.types, this.skipTypes, this.persistence := types, skipTypes, persistence;
      overwriteData, resolvedTypes := map[], [];
    }

    method GetOverwrites(t: TypeName) returns (r: Option<O.Fields>)
      requires Acyclic(types)
      modifies this`resolvedTypes
      ensures O.Resolution(r, resolvedTypes) == O.Resolve(types, overwriteData, old(resolvedTypes), t)
      decreases Height(types, t)
    {
      if t in resolvedTypes {
        return O.Lookup(overwriteData, t);
      }
      if t !in types {
        return None;
      }
      if types[t] == None {
        resolvedTypes := resolvedTypes + [t];
        return O.Lookup(overwriteData, t);
      }
      ParentsBelow(types, t);
      var parents := types[t].value;
      ghost var n := Height(types, t);
      var overwrites: O.Fields := map[];
      for i := 0 to |parents|
        invariant O.ResolveAll(types, overwriteData, old(resolvedTypes), parents[..i], n) ==
          O.Merge(overwrites, resolvedTypes)
      {
        assert parents[..i + 1][..i] == parents[..i] && Height(types, parents[i]) < n;
        var inherited := GetOverwrites(parents[i]);
        if inherited.Some? {
          overwrites := overwrites + inherited.value;
        }
      }
      assert parents[..|parents|] == parents == Extends(types, t);
      assert overwrites + map[] == overwrites;
      if t in overwriteData {
        overwrites := overwrites + overwriteData[t];
      }
      resolvedTypes := resolvedTypes + [t];
      return Some(overwrites);
    }

    /** `keys`: the keys of the object in enumeration order, whatever it is. */
    method SetPlainData(raw: O.Overwrites, keys: seq<TypeName>)
      requires Acyclic(types) && O.Enumerates(keys, raw)
      modifies this
      ensures overwriteData == O.Expand(types, raw, [], keys)
      ensures forall t :: Straight(types, t) ==> O.Get(types, overwriteData, t) == O.Inherited(types, raw, t)
    {
      resolvedTypes := [];
      overwriteData := raw;
      for i := 0 to |keys|
        invariant O.Expand(types, overwriteData, resolvedTypes, keys[i..]) == O.Expand(types, raw, [], keys)
      {
        assert keys[i..][0] == keys[i] && keys[i..][1..] == keys[i + 1..];
        var overwrites := GetOverwrites(keys[i]);
        if overwrites.Some? && |overwrites.value| > 0 {
          overwriteData := overwriteData[keys[i] := overwrites.value];
        }
      }
      forall t | Straight(types, t)
        ensures O.Get(types, overwriteData, t) == O.Inherited(types, raw, t)
      {
        O.LookupIsOrderIndependent(types, raw, keys, t);
      }
    }

    method SetData(raw: O.Overwrites, keys: seq<TypeName>, storeInDb: bool, settings: Settings)
      requires Acyclic(types) && O.Enumerates(keys, raw)
      modifies this, settings
      ensures overwriteData == O.Expand(types, raw, [], keys)
      ensures forall t :: Straight(types, t) ==> O.Get(types, overwriteData, t) == O.Inherited(types, raw, t)
      ensures settings.value == if storeInDb && persistence then Some(overwriteData) else old(settings.value)
    {
      SetPlainData(raw, keys);
      if storeInDb && persistence {
        settings.value := Some(overwriteData);
      }
    }

    /** An instance expands what it loads once more. */
    method LoadOverwriteDataFromDB(settings: Settings, keys: seq<TypeName>)
      requires Acyclic(types) && (settings.value.Some? ==> O.Enumerates(keys, settings.value.value))
      modifies this
      ensures settings.value.None? ==> overwriteData == old(overwriteData) && resolvedTypes == old(resolvedTypes)
      ensures settings.value.Some? ==> overwriteData == O.Expand(types, settings.value.value, [], keys)
    {
      if settings.value.Some? {
        SetPlainData(settings.value.value, keys);
      }
    }

    method ApplyOverwrite(t: TypeName, data: O.Fields, keys: seq<string>) returns (r: O.Fields)
      requires Acyclic(types)
      requires var overwrites := O.Get(types, overwriteData, t);
        overwrites.Some? ==> forall key :: key in keys <==> key in overwrites.value
      ensures r == A.Applied(O.Get(types, overwriteData, t), t in skipTypes, data)
    {
      var overwrites := O.Get(types, overwriteData, t);
      if overwrites == None {
        return data;
      }
      if t in skipTypes &&
         exists key :: key in overwrites.value && !A.Blank(data, key) && data[key] != overwrites.value[key]
      {
        return data;
      }
      r := data;
      for i := 0 to |keys|
        invariant forall key: string :: A.Field(r, key) == A.Visited(overwrites.value, data, key in keys[..i], key)
      {
        var key := keys[i];
        assert A.Field(r, key) == A.Visited(overwrites.value, data, key in keys[..i], key);
        ghost var before := r;
        if A.Blank(r, key) {
          r := r[key := overwrites.value[key]];
        }
        forall k: string
          ensures A.Field(r, k) == A.Visited(overwrites.value, data, k in keys[..i + 1], k)
        {
          assert keys[..i + 1] == keys[..i] + [key];
          assert A.Field(before, k) == A.Visited(overwrites.value, data, k in keys[..i], k);
        }
      }
      assert keys[..|keys|] == keys;
      A.SameFields(r, A.Filled(overwrites.value, data));
    }
  }
}
