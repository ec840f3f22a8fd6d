/** The read side of the queue driver: `hasItem`, `getItem`, `getItemRaw`, `getKeys` and the
    specification of `getItems`. A key with a pending entry is answered from the table and the
    backend is not consulted; only keys with no pending entry are forwarded. */
module QueueReads {
  import opened Values
  import opened Backend
  import opened PendingTable
  import opened FlushDelivery

  /** An answer given from the table, or the read forwarded to the backend. */
  datatype Read<T> = Local(answer: T) | Forward(request: BackendRead)

  /** The value a pending entry reads as: a set's value or null (`value || null`), null for a
      remove. */
  function PendingValue(op: QueuedOperation): Value
  {
    if op.kind == SetOp then OrNull(op.value) else Null
  }

  /** `hasItem(key, opts)` */
  function HasItem(t: Table, key: string, options: Options): Read<bool>
  {
    match Lookup(t, key)
    case Some(op) => Local(op.kind == SetOp)
    case None => Forward(HasItemRead(key, options))
  }

  /** `getItem(key, opts)` */
  function GetItem(t: Table, key: string, options: Options): Read<Value>
  {
    match Lookup(t, key)
    case Some(op) => Local(PendingValue(op))
    case None => Forward(GetItemRead(key, options))
  }

  /** `getItemRaw(key, opts)`: falls back to the backend's `getItem` when it has no
      `getItemRaw`. */
  function GetItemRaw(t: Table, caps: Capabilities, key: string, options: Options): Read<Value>
  {
    match Lookup(t, key)
    case Some(op) => Local(PendingValue(op))
    case None => Forward(if caps.getItemRaw then GetItemRawRead(key, options) else GetItemRead(key, options))
  }

  /** Read-your-writes: each point read goes to the backend exactly when the key has no
      pending entry, and otherwise answers with the pending entry's value. */
  lemma ReadsForwardOnlyWithoutPending(t: Table, caps: Capabilities, key: string, options: Options)
    requires UniqueKeys(t)
    ensures HasItem(t, key, options).Forward? <==> Lookup(t, key).None?
    ensures GetItem(t, key, options).Forward? <==> Lookup(t, key).None?
    ensures GetItemRaw(t, caps, key, options).Forward? <==> Lookup(t, key).None?
    ensures forall i | 0 <= i < |t| && t[i].key == key ::
      && HasItem(t, key, options) == Local(t[i].kind == SetOp)
      && GetItem(t, key, options) == GetItemRaw(t, caps, key, options) == Local(PendingValue(t[i]))
  {
    forall i | 0 <= i < |t| && t[i].key == key ensures Lookup(t, key) == Some(t[i]) {
      var op := Lookup(t, key).value;
      var j :| 0 <= j < |t| && t[j] == op;
    }
  }

  // ---------------------------------------------------------------------------
  // Reads against the reference store: what was read through the queue before a flush is
  // what the backend answers after it.

  /** A memory backend's answer to a forwarded value read (`data.get(key) ?? null`). */
  function StoreAnswer(st: Store, r: Read<Value>): Value
  {
    match r
    case Local(v) => v
    case Forward(request) =>
      match request
      case GetItemRead(k, _) => StoredValue(st, k)
      case GetItemRawRead(k, _) => StoredValue(st, k)
      case _ => Null
  }

  /** A memory backend's answer to a forwarded existence check (`data.has(key)`). */
  function StoreHas(st: Store, r: Read<bool>): bool
  {
    match r
    case Local(b) => b
    case Forward(request) =>
      match request
      case HasItemRead(k, _) => k in st
      case _ => false
  }

  /** `getItem` through the queue before a flush answers what the backend answers after it,
      for every key whose pending entry (if any) is a remove or a set of a truthy value. */
  lemma GetItemAgreesAcrossFlush(st: Store, t: Table, caps: Capabilities, key: string, options: Options)
    requires UniqueKeys(t) && AllAdmitted(t, caps)
    requires Lookup(t, key).Some? && Lookup(t, key).value.kind == SetOp ==> Truthy(Lookup(t, key).value.value)
    ensures StoreAnswer(st, GetItem(t, key, options)) == StoreAnswer(ApplyCalls(st, FlushCalls(t, caps)), GetItem([], key, options))
  {
    FlushDeliversTable(st, t, caps, key);
  }

  /** `hasItem` agrees likewise, for every key whose pending entry is not a set of `undefined`. */
  lemma HasItemAgreesAcrossFlush(st: Store, t: Table, caps: Capabilities, key: string, options: Options)
    requires UniqueKeys(t) && AllAdmitted(t, caps)
    requires Lookup(t, key).Some? && Lookup(t, key).value.kind == SetOp ==> Lookup(t, key).value.value != Undefined
    ensures StoreHas(st, HasItem(t, key, options)) == StoreHas(ApplyCalls(st, FlushCalls(t, caps)), HasItem([], key, options))
  {
    FlushDeliversTable(st, t, caps, key);
  }

  /** The `|| null` coercion is where reads through the queue and the backend part: a pending
      empty string reads as null, yet the flush stores the empty string. */
  lemma FalsyPendingValueReadsNull(st: Store, t: Table, caps: Capabilities, key: string, options: Options)
    requires UniqueKeys(t) && AllAdmitted(t, caps)
    requires Lookup(t, key).Some? && Lookup(t, key).value.kind == SetOp && Lookup(t, key).value.value == Text("")
    ensures StoreAnswer(st, GetItem(t, key, options)) == Null
    ensures StoreAnswer(ApplyCalls(st, FlushCalls(t, caps)), GetItem([], key, options)) == Text("")
  {
    FlushDeliversTable(st, t, caps, key);
  }

  // ---------------------------------------------------------------------------
  // getKeys

  /** Keys of pending entries of one kind that start with `base`, in table order. */
  function PendingKeys(t: Table, base: string, kind: OpKind): seq<string>
  {
    if t == [] then []
    else if StartsWith(t[0].key, base) && t[0].kind == kind then [t[0].key] + PendingKeys(t[1..], base, kind)
    else PendingKeys(t[1..], base, kind)
  }

  /** `[...new Set(s)]`: first occurrences, in order. */
  function Dedup(s: seq<string>): seq<string>
  {
    if s == [] then []
    else
      var d := Dedup(s[..|s| - 1]);
      if s[|s| - 1] in d then d else d + [s[|s| - 1]]
  }

  /** What is left of `s` after deleting every element of `removed`. */
  function Without(s: seq<string>, removed: seq<string>): seq<string>
  {
    if s == [] then []
    else if s[0] in removed then Without(s[1..], removed)
    else [s[0]] + Without(s[1..], removed)
  }

  /** `getKeys(base)`: the backend's keys and the keys of pending sets under `base`, without
      duplicates, minus the keys of pending removes under `base`. */
  function GetKeys(t: Table, driverKeys: seq<string>, base: string): seq<string>
  {
    Without(Dedup(driverKeys + PendingKeys(t, base, SetOp)), PendingKeys(t, base, RemoveOp))
  }

  predicate NoDuplicates(s: seq<string>)
  {
    forall i, j | 0 <= i < j < |s| :: s[i] != s[j]
  }

  /** Whether `key` is under `base` and its pending entry is of the given kind. */
  predicate PendingUnder(t: Table, base: string, key: string, kind: OpKind)
  {
    StartsWith(key, base) && Lookup(t, key).Some? && Lookup(t, key).value.kind == kind
  }

  lemma {:induction false} PendingKeysMembership(t: Table, base: string, kind: OpKind, key: string)
    requires UniqueKeys(t)
    ensures key in PendingKeys(t, base, kind) <==> PendingUnder(t, base, key, kind)
  {
    if t != [] {
      assert UniqueKeys(t[1..]) by {
        forall i, j | 0 <= i < j < |t[1..]| ensures t[1..][i].key != t[1..][j].key {
          assert t[1..][i] == t[i + 1] && t[1..][j] == t[j + 1];
        }
      }
      PendingKeysMembership(t[1..], base, kind, key);
      if t[0].key == key {
        assert Lookup(t[1..], key).None? by {
          forall i | 0 <= i < |t[1..]| ensures t[1..][i].key != key {
            assert t[1..][i] == t[i + 1];
          }
        }
      }
    }
  }

  lemma {:induction false} DedupSpec(s: seq<string>)
    ensures NoDuplicates(Dedup(s))
    ensures forall x :: x in Dedup(s) <==> x in s
    decreases |s|
  {
    if s != [] {
      var init, last := s[..|s| - 1], s[|s| - 1];
      DedupSpec(init);
      assert s == init + [last];
    }
  }

  lemma {:induction false} WithoutSpec(s: seq<string>, removed: seq<string>)
    requires NoDuplicates(s)
    ensures NoDuplicates(Without(s, removed))
    ensures forall x :: x in Without(s, removed) <==> x in s && x !in removed
  {
    if s != [] {
      assert NoDuplicates(s[1..]) by {
        forall i, j | 0 <= i < j < |s[1..]| ensures s[1..][i] != s[1..][j] {
          assert s[1..][i] == s[i + 1] && s[1..][j] == s[j + 1];
        }
      }
      WithoutSpec(s[1..], removed);
      assert s[0] !in s[1..] by {
        forall i | 0 <= i < |s[1..]| ensures s[1..][i] != s[0] {
          assert s[1..][i] == s[i + 1];
        }
      }
      assert s == [s[0]] + s[1..];
    }
  }

  /** `getKeys` lists each key once, and a key is listed exactly when the backend lists it or
      it has a pending set under `base`, and it has no pending remove under `base`. */
  lemma GetKeysSpec(t: Table, driverKeys: seq<string>, base: string)
    requires UniqueKeys(t)
    ensures NoDuplicates(GetKeys(t, driverKeys, base))
    ensures forall key :: key in GetKeys(t, driverKeys, base) <==>
      (key in driverKeys || PendingUnder(t, base, key, SetOp)) && !PendingUnder(t, base, key, RemoveOp)
  {
    var all := driverKeys + PendingKeys(t, base, SetOp);
    DedupSpec(all);
    WithoutSpec(Dedup(all), PendingKeys(t, base, RemoveOp));
    forall key ensures key in GetKeys(t, driverKeys, base) <==>
      (key in driverKeys || PendingUnder(t, base, key, SetOp)) && !PendingUnder(t, base, key, RemoveOp)
    {
      PendingKeysMembership(t, base, SetOp, key);
      PendingKeysMembership(t, base, RemoveOp, key);
    }
  }

  // ---------------------------------------------------------------------------
  // getItems

  /** One `{ key, value }` element of the result of `getItems`. */
  datatype KeyValue = KeyValue(key: string, value: Value)

  /** The results answered from the table, in request order. */
  function QueuedResults(t: Table, items: seq<ReadItem>): seq<KeyValue>
  {
    if items == [] then []
    else
      var last := items[|items| - 1];
      QueuedResults(t, items[..|items| - 1]) +
        (match Lookup(t, last.key)
         case Some(op) => [KeyValue(last.key, PendingValue(op))]
         case None => [])
  }

  /** `nonQueuedItems`: the requested items with no pending entry, in request order. */
  function Unqueued(t: Table, items: seq<ReadItem>): seq<ReadItem>
  {
    if items == [] then []
    else
      var last := items[|items| - 1];
      Unqueued(t, items[..|items| - 1]) + (if Lookup(t, last.key).None? then [last] else [])
  }

  /** The options of the fallback `getItem` for one item: `commonOptions` for a bare key,
      `{ ...commonOptions, ...item.options }` otherwise. */
  function ItemOptions(item: ReadItem, common: Options): Options
  {
    match item
    case KeyItem(_) => common
    case KeyWithOptions(_, own) => MergeOptions(common, own)
  }

  /** The backend reads for the unqueued items: one bulk `getItems` when the backend has it,
      otherwise one `getItem` per item; none when every item was answered from the table. */
  function ForwardedReads(caps: Capabilities, pending: seq<ReadItem>, common: Options): seq<BackendRead>
  {
    if pending == [] then []
    else if caps.getItems then [GetItemsRead(pending, common)]
    else seq(|pending|, i requires 0 <= i < |pending| => GetItemRead(pending[i].key, ItemOptions(pending[i], common)))
  }

  function ResultKeys(rs: seq<KeyValue>): seq<string>
  {
    if rs == [] then [] else ResultKeys(rs[..|rs| - 1]) + [rs[|rs| - 1].key]
  }

  function ItemKeys(items: seq<ReadItem>): seq<string>
  {
    if items == [] then [] else ItemKeys(items[..|items| - 1]) + [items[|items| - 1].key]
  }

  /** Every requested key is accounted for exactly once: answered from the table when it has
      a pending entry (with that entry's value), forwarded to the backend when it has none. */
  lemma {:induction false} GetItemsCoversRequest(t: Table, items: seq<ReadItem>)
    ensures multiset(ResultKeys(QueuedResults(t, items))) + multiset(ItemKeys(Unqueued(t, items))) == multiset(ItemKeys(items))
    ensures forall r | r in QueuedResults(t, items) :: Lookup(t, r.key).Some? && r.value == PendingValue(Lookup(t, r.key).value)
    ensures forall item | item in Unqueued(t, items) :: item in items && Lookup(t, item.key).None?
    decreases |items|
  {
    if items != [] {
      var init, last := items[..|items| - 1], items[|items| - 1];
      GetItemsCoversRequest(t, init);
      var q, u := QueuedResults(t, init), Unqueued(t, init);
      match Lookup(t, last.key)
      case Some(op) =>
        var kv := KeyValue(last.key, PendingValue(op));
        assert QueuedResults(t, items) == q + [kv];
        assert Unqueued(t, items) == u;
        ResultKeysSnoc(q, kv);
      case None =>
        assert QueuedResults(t, items) == q;
        assert Unqueued(t, items) == u + [last];
        ItemKeysSnoc(u, last);
    }
  }

  lemma ResultKeysSnoc(rs: seq<KeyValue>, r: KeyValue)
    ensures ResultKeys(rs + [r]) == ResultKeys(rs) + [r.key]
  {
    assert (rs + [r])[..|rs|] == rs;
  }

  lemma ItemKeysSnoc(items: seq<ReadItem>, item: ReadItem)
    ensures ItemKeys(items + [item]) == ItemKeys(items) + [item.key]
  {
    assert (items + [item])[..|items|] == items;
  }
}
