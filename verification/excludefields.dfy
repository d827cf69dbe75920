/** `prisma/exclude-fields.ts`: deleting properties from a record in place
    before it is returned (the user service drops the password hash and
    salt this way). */
module ExcludeFields {

  /** A JavaScript object: its own properties, by key. */
  class SchemeObject<V> {
    var fields: map<string, V>

    constructor(fields: map<string, V>)
      ensures this.fields == fields
    {
      this.fields := fields;
    }
  }

  /** The properties left once every listed key is deleted. */
  function Without<V>(fields: map<string, V>, keys: seq<string>): (r: map<string, V>)
    ensures forall key :: key in keys ==> key !in r
    ensures forall key :: key in fields && key !in keys ==> key in r && r[key] == fields[key]
    ensures r.Keys <= fields.Keys
  {
    fields - set key | key in keys
  }

  /** excludeFields: each listed key deleted in turn, and the same object
      handed back. */
  method ExcludeFields<V>(schemeObj: SchemeObject<V>, keys: seq<string>) returns (r: SchemeObject<V>)
    modifies schemeObj
    ensures r == schemeObj
    ensures schemeObj.fields == Without(old(schemeObj.fields), keys)
  {
    for i := 0 to |keys|
      invariant schemeObj.fields == Without(old(schemeObj.fields), keys[..i])
    {
      assert keys[..i + 1] == keys[..i] + [keys[i]];
      schemeObj.fields := schemeObj.fields - {keys[i]};
    }
    assert keys[..|keys|] == keys;
    r := schemeObj;
  }

  /** Listing a key a second time deletes nothing more. */
  lemma RepeatedKey<V>(fields: map<string, V>, keys: seq<string>, i: nat)
    requires i < |keys|
    ensures Without(fields, keys + [keys[i]]) == Without(fields, keys)
  {
    assert (set key | key in keys + [keys[i]]) == (set key | key in keys) by {
      assert keys[i] in keys;
    }
  }

  /** Listing a key the object does not have changes nothing. */
  lemma AbsentKey<V>(fields: map<string, V>, keys: seq<string>, key: string)
    requires key !in fields
    ensures Without(fields, keys + [key]) == Without(fields, keys)
  {
    assert (set k | k in keys + [key]) == (set k | k in keys) + {key};
  }

  /** Excluding the same keys twice is excluding them once. */
  lemma ExcludeTwice<V>(fields: map<string, V>, keys: seq<string>)
    ensures Without(Without(fields, keys), keys) == Without(fields, keys)
  {
  }

  /** The order of the listed keys does not matter. */
  lemma KeyOrder<V>(fields: map<string, V>, a: seq<string>, b: seq<string>)
    ensures Without(fields, a + b) == Without(fields, b + a)
  {
    assert (set k | k in a + b) == (set k | k in b + a);
  }
}
