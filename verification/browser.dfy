/** The two browser services the pages use: `localStorage`, a string-keyed
    store (here holding typed values), and the Next.js router, of which only
    the pushed paths are recorded. */
module Browser {
  import opened Entities

  class LocalStorage {
    var entries: map<string, Value>

    constructor ()
      ensures entries == map[]
    {
      entries := map[];
    }

    /** `getItem`: the value under `key`, or nothing when the key is absent. */
    method GetItem(key: string) returns (v: Option<Value>)
      ensures key in entries ==> v == Some(entries[key])
      ensures key !in entries ==> v == None
    {
      v := if key in entries then Some(entries[key]) else None;
    }

    /** `setItem`: binds `key` to `v` and leaves every other key alone. */
    method SetItem(key: string, v: Value)
      modifies this
      ensures entries == old(entries)[key := v]
    {
      entries := entries[key := v];
    }

    /** `removeItem`: unbinds `key` (a no-op when it is absent). */
    method RemoveItem(key: string)
      modifies this
      ensures entries == old(entries) - {key}
    {
      entries := entries - {key};
    }
  }

  class Router {
    /** Every path passed to `router.push`, oldest first. */
    var pushed: seq<string>

    constructor ()
      ensures pushed == []
    {
      pushed := [];
    }

    method Push(path: string)
      modifies this
      ensures pushed == old(pushed) + [path]
    {
      pushed := pushed + [path];
    }
  }
}
