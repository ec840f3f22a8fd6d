/** The wrapped backend driver as the queue driver sees it: which optional operations it
    offers, the calls the queue driver makes on it, and a reference key-value store that gives
    the write calls a meaning. The backend's own implementation is not part of this model. */
module Backend {
  import opened Values

  /** Which optional operations the wrapped driver defines (`driver.setItems`, ...).
      `hasItem`, `getItem` and `getKeys` are always present. */
  datatype Capabilities = Capabilities(
    setItem: bool,
    setItems: bool,
    setItemRaw: bool,
    removeItem: bool,
    getItems: bool,
    getItemRaw: bool,
    clear: bool,
    dispose: bool)

  /** One `{ key, value, options }` element of a bulk `setItems` call. */
  datatype Entry = Entry(key: string, value: Value, options: Options)

  /** A call with side effects the queue driver makes on the backend, in the order issued. */
  datatype BackendCall =
    | SetItemCall(key: string, value: Value, options: Options)
    | SetItemsCall(entries: seq<Entry>)
    | SetItemRawCall(key: string, value: Value, options: Options)
    | RemoveItemCall(key: string, options: Options)
    | ClearCall(base: string, options: Options)
    | DisposeCall

  /** An element of the `items` argument of `getItems`: a key, or `{ key, options }`. */
  datatype ReadItem = KeyItem(key: string) | KeyWithOptions(key: string, options: Options)

  /** A read the queue driver forwards to the backend. */
  datatype BackendRead =
    | HasItemRead(key: string, options: Options)
    | GetItemRead(key: string, options: Options)
    | GetItemRawRead(key: string, options: Options)
    | GetItemsRead(items: seq<ReadItem>, options: Options)

  // ---------------------------------------------------------------------------
  // A reference in-memory backend: the meaning of the write calls.

  type Store = map<string, Value>

  /** What a memory backend answers to `getItem(key)`. */
  function StoredValue(st: Store, key: string): Value
  {
    if key in st then st[key] else Null
  }

  function ApplyEntries(st: Store, es: seq<Entry>): Store
    decreases |es|
  {
    if es == [] then st else ApplyEntries(st[es[0].key := es[0].value], es[1..])
  }

  function ApplyCall(st: Store, c: BackendCall): Store
  {
    match c
    case SetItemCall(k, v, _) => st[k := v]
    case SetItemRawCall(k, v, _) => st[k := v]
    case SetItemsCall(es) => ApplyEntries(st, es)
    case RemoveItemCall(k, _) => st - {k}
    case ClearCall(base, _) => map k | k in st && !StartsWith(k, base) :: st[k]
    case DisposeCall => st
  }

  /** The store after the calls have been applied one after another. */
  function ApplyCalls(st: Store, cs: seq<BackendCall>): Store
    decreases |cs|
  {
    if cs == [] then st else ApplyCalls(ApplyCall(st, cs[0]), cs[1..])
  }
}
