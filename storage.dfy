/** The browser's `localStorage`, reduced to what the app stores in it:
    a map from keys to values already parsed from their JSON text. */
module Storage {
  import opened Wrappers

  class LocalStorage<V> {
    var items: map<string, V>

    constructor(initial: map<string, V>)
      ensures items == initial
    {
      items := initial;
    }

    /** `getItem(key)`, with `null` as None. */
    function GetItem(key: string): (r: Option<V>)
      reads this
      ensures r.Some? <==> key in items
      ensures r.Some? ==> r.value == items[key]
    {
      if key in items then Some(items[key]) else None
    }

    method SetItem(key: string, value: V)
      modifies this
      ensures items == old(items)[key := value]
    {
      items := items[key := value];
    }

    method RemoveItem(key: string)
      modifies this
      ensures items == old(items) - {key}
    {
      items := items - {key};
    }
  }
}
