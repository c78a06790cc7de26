/** Filling the empty fields of a credential from its overwrites, and telling whether that would change it. */
module ApplyOverwrite {
  import opened Basics
  import opened CredentialsOverwrites

  /** A field the overwrite may fill: absent, null or the empty string. */
  predicate Blank(data: Fields, key: string) {
    key !in data || data[key] == Null || data[key] == Text("")
  }

  /** The user has set an overwritten field to something else. */
  predicate Customized(overwrites: Fields, data: Fields) {
    exists key :: key in overwrites && !Blank(data, key) && data[key] != overwrites[key]
  }

  function Filled(overwrites: Fields, data: Fields): Fields {
    data + map key | key in overwrites && Blank(data, key) :: overwrites[key]
  }

  /** `skip`: the type is on the skip list, whose credentials are left alone once customized. */
  function Applied(overwrites: Option<Fields>, skip: bool, data: Fields): Fields {
    if overwrites.None? || (skip && Customized(overwrites.value, data)) then data
    else Filled(overwrites.value, data)
  }

  function Field(data: Fields, key: string): Option<Value> {
    if key in data then Some(data[key]) else None
  }

  /** `usesManagedAuth`: some overwritten field reads differently after applying the overwrite. */
  predicate UsesManaged(overwrites: Option<Fields>, skip: bool, data: Fields) {
    overwrites.Some? &&
    exists key :: key in overwrites.value && Field(Applied(overwrites, skip, data), key) != Field(data, key)
  }

  /** The field `key` before or after the loop has visited it. */
  function Visited(overwrites: Fields, data: Fields, done: bool, key: string): Option<Value> {
    if done && key in overwrites && Blank(data, key) then Some(overwrites[key]) else Field(data, key)
  }

  lemma AppliedIsIdempotent(overwrites: Option<Fields>, skip: bool, data: Fields)
    ensures Applied(overwrites, skip, Applied(overwrites, skip, data)) == Applied(overwrites, skip, data)
  {
    var once := Applied(overwrites, skip, data);
    if overwrites.Some? && once == Filled(overwrites.value, data) {
      assert Filled(overwrites.value, once) == once;
    }
  }

  /** Fields with a value and fields outside the overwrite stay; a blank field gets the overwrite's value or stays. */
  lemma AppliedKeepsValues(overwrites: Option<Fields>, skip: bool, data: Fields, key: string)
    ensures !Blank(data, key) || overwrites.None? || key !in overwrites.value ==>
      Field(Applied(overwrites, skip, data), key) == Field(data, key)
    ensures overwrites.Some? && key in overwrites.value && Blank(data, key) &&
            !(skip && Customized(overwrites.value, data)) ==>
      Field(Applied(overwrites, skip, data), key) == Some(overwrites.value[key])
  {
  }

  /** The user has set an overwritten field: it has a value, and neither the empty string nor the overwrite's. */
  predicate UserSet(overwrites: Fields, data: Fields, key: string) {
    key in overwrites && key in data && data[key] !in {Null, Text(""), overwrites[key]}
  }

  /**
   What applying means, field by field: an overwritten field that is absent, null
   or the empty string gets the overwrite's value, and nothing else changes; on the
   skip list nothing changes at all once the user has set an overwritten field.
   */
  lemma AppliedMeans(overwrites: Fields, skip: bool, data: Fields, key: string)
    ensures Field(Applied(None, skip, data), key) == Field(data, key)
    ensures skip && (exists k :: UserSet(overwrites, data, k)) ==>
      Field(Applied(Some(overwrites), skip, data), key) == Field(data, key)
    ensures !skip || (forall k :: !UserSet(overwrites, data, k)) ==>
      Field(Applied(Some(overwrites), skip, data), key) ==
        if key in overwrites && Field(data, key) in {None, Some(Null), Some(Text(""))} then Some(overwrites[key])
        else Field(data, key)
  {
    if k :| UserSet(overwrites, data, k) {
      assert Customized(overwrites, data);
    }
    if Customized(overwrites, data) {
      var k :| k in overwrites && !Blank(data, k) && data[k] != overwrites[k];
      assert UserSet(overwrites, data, k);
    }
  }

  /** A credential uses managed authentication exactly when applying the overwrite changes it. */
  lemma ManagedIffChanged(overwrites: Option<Fields>, skip: bool, data: Fields)
    ensures UsesManaged(overwrites, skip, data) <==> Applied(overwrites, skip, data) != data
  {
    var applied := Applied(overwrites, skip, data);
    if !UsesManaged(overwrites, skip, data) {
      forall key: string
        ensures Field(applied, key) == Field(data, key)
      {
        AppliedKeepsValues(overwrites, skip, data, key);
      }
      SameFields(applied, data);
    }
  }

  lemma SameFields(a: Fields, b: Fields)
    requires forall key: string :: Field(a, key) == Field(b, key)
    ensures a == b
  {
    assert forall key :: key in a ==> Field(b, key).Some?;
    assert forall key :: key in b ==> Field(a, key).Some?;
    assert forall key :: key in a ==> Field(a, key) == Field(b, key);
  }

  /** On the skip list the overwrite changes a credential only while every field it covers is blank or equal to it. */
  lemma SkipListed(overwrites: Fields, data: Fields)
    ensures UsesManaged(Some(overwrites), true, data) ==>
      forall key :: key in overwrites ==> Field(Applied(Some(overwrites), true, data), key) == Some(overwrites[key])
  {
    ManagedIffChanged(Some(overwrites), true, data);
  }
}
