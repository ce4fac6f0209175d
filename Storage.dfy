/** The browser's `localStorage`: a string-keyed store that the components
    and the session helpers write step by step. A value written with
    `JSON.stringify` of a flat record is kept as that record, so reading it
    back with `JSON.parse` returns the same fields. */
module Storage {
  import opened Common

  /** A field of a stored flat JSON record. */
  datatype Field = Str(s: string) | Num(n: int) | Bool(b: bool) | Null

  /** What a key holds: a plain string, or a serialised flat record. */
  datatype Value = Text(text: string) | Record(fields: map<string, Field>)

  class LocalStorage {
    var items: map<string, Value>

    constructor (initial: map<string, Value>)
      ensures items == initial
    {
      items := initial;
    }

    /** `getItem`: the value under `key`, or null. */
    function GetItem(key: string): (r: Option<Value>)
      reads this
      ensures r.Some? <==> key in items
      ensures r.Some? ==> r.value == items[key]
    {
      if key in items then Some(items[key]) else None
    }

    /** `setItem`: `key` now holds `value`; every other key is unchanged. */
    method SetItem(key: string, value: Value)
      modifies this
      ensures items == old(items)[key := value]
    {
      items := items[key := value];
    }

    /** `removeItem`: `key` is gone; every other key is unchanged. */
    method RemoveItem(key: string)
      modifies this
      ensures items == old(items) - {key}
    {
      items := items - {key};
    }
  }
}
