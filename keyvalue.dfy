/**
 * `window.localStorage` as the app uses it: a map from keys to strings. A
 * write can be refused (quota exceeded, private mode), in which case the map
 * is left as it was.
 */
module KeyValue {
  import opened Wrappers

  class Store {
    var entries: map<string, string>
    /** Whether `set_item` succeeds. */
    const accepts: bool

    constructor(entries: map<string, string>, accepts: bool)
      ensures this.entries == entries && this.accepts == accepts
    {
      this.entries := entries;
      this.accepts := accepts;
    }

    /** `get_item(key)`. */
    function Get(key: string): (r: Option<string>)
      reads this
      ensures r.Some? <==> key in entries
      ensures r.Some? ==> r.value == entries[key]
    {
      if key in entries then Some(entries[key]) else None
    }

    /** `set_item(key, value)`: `ok` is false when the write is refused. */
    method SetItem(key: string, value: string) returns (ok: bool)
      modifies this
      ensures ok == accepts
      ensures entries == if ok then old(entries)[key := value] else old(entries)
    {
      ok := accepts;
      if ok {
        entries := entries[key := value];
      }
    }
  }
}
