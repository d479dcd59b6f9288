/** The browser's `localStorage`: one string-to-string store shared by the
    session store and the API gateway. */
module WebStorage {
  import opened Js

  /** The value stored under `key`; `None` is `null`. */
  function ItemOf(items: map<string, string>, key: string): Option<string>
  {
    if key in items then Some(items[key]) else None
  }

  class LocalStorage {
    var items: map<string, string>

    constructor (initial: map<string, string>)
      ensures items == initial
    {
      items := initial;
    }

    /** `getItem(key)`: `None` is `null`. */
    function GetItem(key: string): Option<string>
      reads this
    {
      ItemOf(items, key)
    }

    method SetItem(key: string, value: string)
      modifies this
      ensures items == old(items)[key := value]
    {
      items := items[key := value];
    }

    method RemoveItem(key: string)
      modifies this
      ensures items == old(items) - {key}
    {
      items := items - {key};
    }
  }
}
