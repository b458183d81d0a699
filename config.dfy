/**
 * The client's option store: a flat map from option names to PHP values. The client reads
 * its settings from it and keeps the current token in it under `accesstoken`.
 */
module Config {
  import opened Wrappers
  import opened ByteStrings
  import opened FormData
  import opened Tokens
  import opened Errors

  /** The kinds of value the client keeps in its options. */
  datatype Value =
    | Text(s: Bytes)
    | Integer(n: int)
    | Flag(b: bool)
    | Items(items: seq<Bytes>)    // a PHP list, such as `scope`
    | Pairs(entries: seq<Pair>)   // an ordered PHP array of strings, such as `requestparams`
    | Fields(token: Token)        // the token stored under `accesstoken`

  type Options = map<Bytes, Value>

  /** PHP truthiness: empty strings, "0", zero, false and empty arrays are false. */
  predicate Truthy(v: Value) {
    match v
    case Text(s) => s != [] && s != "0"
    case Integer(n) => n != 0
    case Flag(b) => b
    case Items(items) => items != []
    case Pairs(entries) => entries != []
    case Fields(token) => token != map[]
  }

  /** `getOption(key)`: the stored value, or nothing. */
  function Lookup(o: Options, key: Bytes): Option<Value>
  {
    if key in o then Some(o[key]) else None
  }

  /** An option is on when it is set to a truthy value. */
  predicate IsOn(o: Options, key: Bytes) {
    key in o && Truthy(o[key])
  }

  /** A string option that is set and truthy. */
  function TextOption(o: Options, key: Bytes): Option<Bytes>
  {
    if key in o && o[key].Text? && Truthy(o[key]) then Some(o[key].s) else None
  }

  /** A string option the operation cannot do without. */
  function Required(o: Options, key: Bytes): (r: Result<Bytes, Error>)
    ensures r.Ok? <==> TextOption(o, key).Some?
    ensures r.Ok? ==> r.value == TextOption(o, key).value && r.value != []
    ensures r.Err? ==> r.error == ConfigurationError(key)
  {
    match TextOption(o, key)
    case Some(s) => Ok(s)
    case None => Err(ConfigurationError(key))
  }

  /**
   * A string option the operation sends as it is. An unset option becomes the empty string
   * where PHP holds null, so a form field built from it is sent empty rather than dropped.
   */
  function TextOr(o: Options, key: Bytes): Bytes
  {
    match TextOption(o, key)
    case Some(s) => s
    case None => []
  }
}
