/** The cache of resolved values, keyed by approval and secret. */
module Caches {
  import opened GrantValues

  type Cached = map<CacheKey, string>

  function DropScope(values: Cached, scopeID: string): Cached {
    map k | k in values && k.scopeID != scopeID :: values[k]
  }

  class SecretCache {
    var values: Cached

    constructor ()
      ensures values == map[]
    {
      values := map[];
    }

    /** A value is stored only in locked memory, if there is any for it. */
    method Put(key: CacheKey, value: string, locked: bool) returns (ok: bool)
      modifies this
      ensures ok == locked
      ensures values == if ok then old(values)[key := value] else old(values)
    {
      if !locked { return false; }
      values := values[key := value];
      return true;
    }

    method ClearScope(scopeID: string)
      modifies this
      ensures values == DropScope(old(values), scopeID)
    {
      var todo := values.Keys;
      ghost var before := values;
      while todo != {}
        invariant todo <= values.Keys <= before.Keys
        invariant forall k :: k in values ==> values[k] == before[k] && (k in todo || k.scopeID != scopeID)
        invariant forall k :: k in before && k !in values ==> k.scopeID == scopeID
        decreases |todo|
      {
        var k :| k in todo;
        if k.scopeID == scopeID { values := values - {k}; }
        todo := todo - {k};
      }
    }

    method Clear()
      modifies this
      ensures values == map[]
    {
      values := map[];
    }
  }
}
