/** Optional values, results, and the Python exceptions the plugin's code can raise. */
module Wrappers {

  datatype Option<+T> = None | Some(value: T)

  /** The exception class a Python statement of the plugin raises. */
  datatype Error =
    | IndexError          // `[0]` applied to an empty XPath result
    | ValueError          // `int(...)` or `datetime(...)` refusing a value
    | OverflowError       // `datetime(...)` given a year wider than a C `int`
    | UnicodeEncodeError  // `str(...)` of text with a character outside ASCII
    | FetchError          // the browser could not open a URL

  /** A value, or the exception raised while computing it. */
  datatype Result<+T> = Ok(value: T) | Err(error: Error)

  /** How a procedure of the plugin ends: it returns, or an exception escapes it. */
  datatype Outcome = Returned | Raised(error: Error)

  /** Python truthiness of an optional string: present and non-empty. */
  predicate Truthy(s: Option<string>) {
    s.Some? && s.value != ""
  }

  /** `d.get(key, None)` on a dictionary of strings. */
  function Get<K, V>(d: map<K, V>, key: K): (r: Option<V>)
    ensures r.Some? <==> key in d
    ensures r.Some? ==> r.value == d[key]
  {
    if key in d then Some(d[key]) else None
  }
}
