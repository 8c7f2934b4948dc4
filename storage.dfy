/**
 * The browser's `localStorage` as a key-value map shared by every hook that
 * holds a reference to it.
 */
module Storage {
  import opened Collections
  import opened Types

  class LocalStorage {
    var entries: map<string, Blob>

    constructor (initial: map<string, Blob>)
      ensures entries == initial
    {
      entries := initial;
    }

    /** `localStorage.getItem(key)`, with `None` for `null`. */
    function GetItem(key: string): (r: Option<Blob>)
      reads this
      ensures r.Some? <==> key in entries
      ensures r.Some? ==> r.value == entries[key]
    {
      if key in entries then Some(entries[key]) else None
    }

    /** `localStorage.setItem(key, value)` */
    method SetItem(key: string, value: Blob)
      modifies this
      ensures entries == old(entries)[key := value]
    {
      entries := entries[key := value];
    }

    /** `localStorage.removeItem(key)` */
    method RemoveItem(key: string)
      modifies this
      ensures entries == old(entries) - {key}
      ensures key !in entries
    {
      entries := entries - {key};
    }
  }
}
