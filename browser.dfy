/**
 The browser facilities the views share: `localStorage` (a string-to-string
 store) and the two JavaScript value rules the code relies on, truthiness of
 an optional string and its conversion to text by `String(...)` or a template
 literal.
 */
module Browser {
  import opened Wrappers

  /** JavaScript truthiness of a string that may be `null`/`undefined`: the empty string is falsy. */
  predicate Truthy(v: Option<string>)
  {
    v.Some? && v.value != ""
  }

  /** A JavaScript value as far as the views convert it to text: `undefined`, `null` or a string. */
  datatype JsValue = Undefined | Null | Str(text: string)

  /** `String(v)`, as `setItem` and template literals convert a value to text. */
  function JsString(v: JsValue): (s: string)
    ensures v.Str? ==> s == v.text
    ensures v.Undefined? ==> s == "undefined"
    ensures v.Null? ==> s == "null"
  {
    match v
    case Str(text) => text
    case Undefined => "undefined"
    case Null => "null"
  }

  /** `getItem(key)` on the store contents: the stored text, or null when the key is absent. */
  function Lookup(items: map<string, string>, key: string): (r: Option<string>)
    ensures r.Some? <==> key in items
    ensures r.Some? ==> r.value == items[key]
  {
    if key in items then Some(items[key]) else None
  }

  /** `window.localStorage`. */
  class LocalStorage {
    var items: map<string, string>

    constructor (initial: map<string, string>)
      ensures items == initial
    {
      items := initial;
    }

    function GetItem(key: string): Option<string>
      reads this
    {
      Lookup(items, key)
    }

    method SetItem(key: string, value: string)
      modifies this
      ensures items == old(items)[key := value]
    {
      items := items[key := value];
    }

    method RemoveItem(key: string)
      modifies this
      ensures items == old(items) - {key}
    {
      items := items - {key};
    }

    method Clear()
      modifies this
      ensures items == map[]
    {
      items := map[];
    }
  }
}
