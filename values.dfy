/** Values that flow through the storage drivers: the JavaScript values a caller may hand to
    `setItem`, the per-call transaction options, and the truthiness test behind `value || null`. */
module Values {

  datatype Option<+T> = None | Some(value: T)

  /** An octet of a `Uint8Array`. */
  type byte = x: int | 0 <= x < 256

  /** The JavaScript values the drivers pass around. Numbers are integers here (no NaN). */
  datatype Value =
    | Undefined
    | Null
    | Bool(b: bool)
    | Number(n: int)
    | Text(s: string)
    | Bytes(data: seq<byte>)

  /** `TransactionOptions`: an open record of named options. */
  type Options = map<string, Value>

  /** JavaScript truthiness: `undefined`, `null`, `false`, `0` and `""` are falsy. */
  predicate Truthy(v: Value)
  {
    match v
    case Undefined => false
    case Null => false
    case Bool(b) => b
    case Number(n) => n != 0
    case Text(s) => s != ""
    case Bytes(_) => true
  }

  /** `v || null` */
  function OrNull(v: Value): Value
  {
    if Truthy(v) then v else Null
  }

  /** `{ ...common, ...own }`: the options of `own` override those of `common`. */
  function MergeOptions(common: Options, own: Options): Options
  {
    common + own
  }

  /** `s.startsWith(prefix)` */
  predicate StartsWith(s: string, prefix: string)
  {
    |prefix| <= |s| && s[..|prefix|] == prefix
  }
}
