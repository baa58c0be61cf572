/** PHP values as a generated hydrator receives them: the decoded document array
    passed to `hydrate($document, $data)`, and the PHP rules (`isset`, truthiness,
    array indexing) that the generated code applies to it. */
module PhpValues {

  datatype Option<+T> = None | Some(value: T)

  /** A value decoded from a stored document. PHP has a single array type; the
      model keeps string-keyed arrays (sub-documents) and lists apart. */
  datatype Value =
    | Null
    | Bool(b: bool)
    | Int(i: int)
    | Float(r: real)
    | Str(s: string)
    | List(items: seq<Value>)
    | Doc(entries: map<string, Value>)
    | Object(handle: nat)   // a driver object such as a MongoId or a MongoDate

  /** The entry of a PHP array under a key, or None when the key is absent. */
  function Lookup<K, V>(m: map<K, V>, k: K): Option<V>
  {
    if k in m then Some(m[k]) else None
  }

  /** PHP's isset test on an array entry: false both for a missing key and for a
      key whose value is null. */
  predicate Isset(data: map<string, Value>, key: string): (r: bool)
    ensures r <==> Lookup(data, key) !in {None, Some(Null)}
  {
    key in data && !data[key].Null?
  }

  /** PHP conversion to boolean, as an `if` applies it to a value. */
  predicate Truthy(v: Value): (r: bool)
    // the falsy values of PHP, listed in one place
    ensures !r <==> v in {Null, Bool(false), Int(0), Float(0.0), Str(""), Str("0"), List([]), Doc(map[])}
  {
    match v
    case Null => false
    case Bool(b) => b
    case Int(i) => i != 0
    case Float(r) => r != 0.0
    case Str(s) => s != "" && s != "0"
    case List(items) => items != []
    case Doc(entries) => entries != map[]
    case Object(_) => true
  }

  /** PHP array indexing with a string key: the entry of a sub-document, and null
      (with a notice) when the key or the array is missing. */
  function Index(v: Value, key: string): Value
  {
    if v.Doc? && key in v.entries then v.entries[key] else Null
  }
}
