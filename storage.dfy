/** The browser's localStorage, seen by one container through JSON.parse and
    JSON.stringify: each key holds the text of a JSON array of records of one
    type, an empty string, or text that does not parse. Serialising a list and
    parsing it back gives the same list. */
module Storage {
  import opened JsBuiltins

  datatype StoredText<T> =
    | EmptyText            // "" — falsy, and not valid JSON
    | Json(items: seq<T>)  // the text JSON.stringify produced for `items`
    | Malformed            // text on which JSON.parse throws

  /** What `getItem` returned is the text of a JSON array. */
  predicate HoldsList<T>(stored: Option<StoredText<T>>) {
    stored.Some? && stored.value.Json?
  }

  class LocalStorage<T> {
    var entries: map<string, StoredText<T>>

    constructor (initial: map<string, StoredText<T>>)
      ensures entries == initial
    {
      entries := initial;
    }

    /** `localStorage.getItem(key)`; `None` is `null`. */
    function GetItem(key: string): (r: Option<StoredText<T>>)
      reads this
      ensures r.Some? <==> key in entries
      ensures r.Some? ==> r.value == entries[key]
    {
      if key in entries then Some(entries[key]) else None
    }

    /** `localStorage.setItem(key, JSON.stringify(items))`. */
    method SetItem(key: string, items: seq<T>)
      modifies this
      ensures entries == old(entries)[key := Json(items)]
    {
      entries := entries[key := Json(items)];
    }

    /** `localStorage.removeItem(key)`. */
    method RemoveItem(key: string)
      modifies this
      ensures entries == old(entries) - {key}
    {
      entries := entries - {key};
    }
  }
}
