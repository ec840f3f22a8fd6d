/** The pending-operation table of the queue driver (`QueueContext.queue`, a
    `Map<string, QueuedOperation>`) and what a flush makes of it: the snapshot sorted by
    timestamp, its split into sets and removes, and the backend calls that deliver them. */
module PendingTable {
  import opened Values
  import opened Backend

  datatype OpKind = SetOp | RemoveOp

  /** `QueuedOperation`: an absent `value` is `Undefined`, an absent `isRaw` is false. */
  datatype QueuedOperation = QueuedOperation(
    kind: OpKind,
    key: string,
    value: Value,
    options: Options,
    timestamp: int,
    isRaw: bool)

  /** The table's entries in the Map's insertion order. */
  type Table = seq<QueuedOperation>

  function Keys(t: Table): seq<string>
  {
    if t == [] then [] else [t[0].key] + Keys(t[1..])
  }

  /** A Map holds at most one entry per key. */
  predicate UniqueKeys(t: Table)
  {
    forall i, j | 0 <= i < j < |t| :: t[i].key != t[j].key
  }

  /** `queue.get(key)` */
  function Lookup(t: Table, key: string): (r: Option<QueuedOperation>)
    ensures r.Some? ==> r.value in t && r.value.key == key
    ensures r.None? <==> forall i | 0 <= i < |t| :: t[i].key != key
  {
    if t == [] then None
    else if t[0].key == key then Some(t[0])
    else Lookup(t[1..], key)
  }

  /** `queue.set(op.key, op)`: an existing entry is replaced where it stands, a new key is
      appended at the end of the insertion order. */
  function Put(t: Table, op: QueuedOperation): Table
  {
    if t == [] then [op]
    else if t[0].key == op.key then [op] + t[1..]
    else [t[0]] + Put(t[1..], op)
  }

  /** The insertion step of `queueOperation`: with `mergeUpdates` the newest operation replaces
      the pending one, without it the first operation for a key stays until the flush. */
  function Admit(t: Table, op: QueuedOperation, mergeUpdates: bool): Table
  {
    if mergeUpdates || Lookup(t, op.key).None? then Put(t, op) else t
  }

  lemma {:induction false} PutLookup(t: Table, op: QueuedOperation, key: string)
    ensures Lookup(Put(t, op), key) == if key == op.key then Some(op) else Lookup(t, key)
  {
    if t != [] && t[0].key != op.key {
      PutLookup(t[1..], op, key);
    }
  }

  /** Put keeps the insertion order: replacing leaves the key order alone, a new key goes last. */
  lemma {:induction false} PutKeys(t: Table, op: QueuedOperation)
    ensures Keys(Put(t, op)) == if Lookup(t, op.key).Some? then Keys(t) else Keys(t) + [op.key]
  {
    if t != [] && t[0].key != op.key {
      PutKeys(t[1..], op);
      assert Lookup(t, op.key) == Lookup(t[1..], op.key);
    }
  }

  lemma {:induction false} PutSize(t: Table, op: QueuedOperation)
    ensures |Put(t, op)| == if Lookup(t, op.key).Some? then |t| else |t| + 1
  {
    if t != [] && t[0].key != op.key {
      PutSize(t[1..], op);
    }
  }

  lemma {:induction false} PutElements(t: Table, op: QueuedOperation)
    ensures forall x | x in Put(t, op) :: x == op || x in t
  {
    if t != [] && t[0].key != op.key {
      PutElements(t[1..], op);
    }
  }

  /** The table never holds two entries for one key. */
  lemma {:induction false} PutUnique(t: Table, op: QueuedOperation)
    requires UniqueKeys(t)
    ensures UniqueKeys(Put(t, op))
  {
    if t != [] && t[0].key != op.key {
      PutUnique(t[1..], op);
      var r := Put(t[1..], op);
      forall x | x in r ensures x.key != t[0].key {
        PutElements(t[1..], op);
        if x != op {
          var j :| 0 <= j < |t[1..]| && t[1..][j] == x;
          assert t[j + 1] == x;
        }
      }
      assert Put(t, op) == [t[0]] + r;
    } else if t != [] {
      assert Put(t, op) == [op] + t[1..];
    }
  }

  /** What Admit does to the table, key by key: the arriving operation takes the key's place
      exactly when updates merge or the key has nothing pending. */
  lemma AdmitLookup(t: Table, op: QueuedOperation, mergeUpdates: bool, key: string)
    ensures Lookup(Admit(t, op, mergeUpdates), key) ==
      if key == op.key && (mergeUpdates || Lookup(t, key).None?) then Some(op) else Lookup(t, key)
  {
    PutLookup(t, op, key);
  }

  lemma AdmitUnique(t: Table, op: QueuedOperation, mergeUpdates: bool)
    requires UniqueKeys(t)
    ensures UniqueKeys(Admit(t, op, mergeUpdates))
    ensures |Admit(t, op, mergeUpdates)| == if Lookup(t, op.key).Some? then |t| else |t| + 1
  {
    PutUnique(t, op);
    PutSize(t, op);
  }

  /** Whether the driver accepts the operation at all: `setItem` and `setItems` need the
      backend's `setItem`, `setItemRaw` needs `setItem` or `setItemRaw`, `removeItem` needs
      `removeItem`. */
  predicate Admitted(op: QueuedOperation, caps: Capabilities)
  {
    match op.kind
    case SetOp => if op.isRaw then caps.setItem || caps.setItemRaw else caps.setItem
    case RemoveOp => caps.removeItem
  }

  predicate AllAdmitted(t: Table, caps: Capabilities)
  {
    forall i | 0 <= i < |t| :: Admitted(t[i], caps)
  }

  lemma AdmitAdmitted(t: Table, op: QueuedOperation, mergeUpdates: bool, caps: Capabilities)
    requires AllAdmitted(t, caps) && Admitted(op, caps)
    ensures AllAdmitted(Admit(t, op, mergeUpdates), caps)
  {
    PutElements(t, op);
    var r := Admit(t, op, mergeUpdates);
    forall i | 0 <= i < |r| ensures Admitted(r[i], caps) {
      assert r[i] in r;
    }
  }

  // ---------------------------------------------------------------------------
  // The snapshot: `[...queue.values()].sort((a, b) => a.timestamp - b.timestamp)`.
  // Array.prototype.sort is stable, so entries with equal timestamps keep the Map's order.

  /** Inserts `op` before the first element whose timestamp is not smaller. */
  function Insert(op: QueuedOperation, s: seq<QueuedOperation>): seq<QueuedOperation>
  {
    if s == [] then [op]
    else if op.timestamp <= s[0].timestamp then [op] + s
    else [s[0]] + Insert(op, s[1..])
  }

  function SortByTime(t: Table): seq<QueuedOperation>
  {
    if t == [] then [] else Insert(t[0], SortByTime(t[1..]))
  }

  predicate SortedByTime(s: seq<QueuedOperation>)
  {
    forall i, j | 0 <= i < j < |s| :: s[i].timestamp <= s[j].timestamp
  }

  /** The elements carrying the timestamp `ts`, in order. */
  function WithTimestamp(s: seq<QueuedOperation>, ts: int): seq<QueuedOperation>
  {
    if s == [] then []
    else if s[0].timestamp == ts then [s[0]] + WithTimestamp(s[1..], ts)
    else WithTimestamp(s[1..], ts)
  }

  predicate AllFrom(s: seq<QueuedOperation>, lo: int)
  {
    forall i | 0 <= i < |s| :: lo <= s[i].timestamp
  }

  lemma ConsSorted(x: QueuedOperation, s: seq<QueuedOperation>)
    ensures SortedByTime([x] + s) <==> SortedByTime(s) && AllFrom(s, x.timestamp)
  {
    var r := [x] + s;
    if SortedByTime(s) && AllFrom(s, x.timestamp) {
      forall i, j | 0 <= i < j < |r| ensures r[i].timestamp <= r[j].timestamp {
        if i > 0 { assert r[i] == s[i - 1] && r[j] == s[j - 1]; }
      }
    }
    if SortedByTime(r) {
      forall i, j | 0 <= i < j < |s| ensures s[i].timestamp <= s[j].timestamp {
        assert s[i] == r[i + 1] && s[j] == r[j + 1];
      }
      forall i | 0 <= i < |s| ensures x.timestamp <= s[i].timestamp {
        assert r[0] == x && s[i] == r[i + 1];
      }
    }
  }

  lemma {:induction false} InsertFrom(op: QueuedOperation, s: seq<QueuedOperation>, lo: int)
    requires AllFrom(s, lo) && lo <= op.timestamp
    ensures AllFrom(Insert(op, s), lo)
  {
    if s != [] && op.timestamp > s[0].timestamp {
      InsertFrom(op, s[1..], lo);
      var r := Insert(op, s[1..]);
      assert Insert(op, s) == [s[0]] + r;
      forall i | 0 <= i < |[s[0]] + r| ensures lo <= ([s[0]] + r)[i].timestamp {
        if i > 0 { assert ([s[0]] + r)[i] == r[i - 1]; }
      }
    }
  }

  lemma {:induction false} InsertSorted(op: QueuedOperation, s: seq<QueuedOperation>)
    requires SortedByTime(s)
    ensures SortedByTime(Insert(op, s))
  {
    if s == [] {
    } else if op.timestamp <= s[0].timestamp {
      ConsSorted(s[0], s[1..]);
      assert s == [s[0]] + s[1..];
      forall i | 0 <= i < |s| ensures op.timestamp <= s[i].timestamp {
        if i > 0 { assert s[0].timestamp <= s[i].timestamp; }
      }
      ConsSorted(op, s);
    } else {
      assert s == [s[0]] + s[1..];
      ConsSorted(s[0], s[1..]);
      InsertSorted(op, s[1..]);
      InsertFrom(op, s[1..], s[0].timestamp);
      ConsSorted(s[0], Insert(op, s[1..]));
    }
  }

  lemma {:induction false} InsertMultiset(op: QueuedOperation, s: seq<QueuedOperation>)
    ensures multiset(Insert(op, s)) == multiset(s) + multiset{op}
  {
    if s != [] && op.timestamp > s[0].timestamp {
      InsertMultiset(op, s[1..]);
      assert s == [s[0]] + s[1..];
    }
  }

  /** The snapshot is sorted ascending by timestamp and holds exactly the table's entries. */
  lemma {:induction false} SortByTimeSorted(t: Table)
    ensures SortedByTime(SortByTime(t))
    ensures multiset(SortByTime(t)) == multiset(t)
  {
    if t != [] {
      SortByTimeSorted(t[1..]);
      InsertSorted(t[0], SortByTime(t[1..]));
      InsertMultiset(t[0], SortByTime(t[1..]));
      assert t == [t[0]] + t[1..];
    }
  }

  /** A snapshot already in timestamp order is left as it is. */
  lemma {:induction false} SortByTimeSortedInput(t: Table)
    requires SortedByTime(t)
    ensures SortByTime(t) == t
  {
    if t != [] {
      assert SortedByTime(t[1..]) by {
        forall i, j | 0 <= i < j < |t[1..]| ensures t[1..][i].timestamp <= t[1..][j].timestamp {
          assert t[1..][i] == t[i + 1] && t[1..][j] == t[j + 1];
        }
      }
      SortByTimeSortedInput(t[1..]);
      assert t == [t[0]] + t[1..];
    }
  }

  lemma {:induction false} InsertWithTimestamp(op: QueuedOperation, s: seq<QueuedOperation>, ts: int)
    ensures WithTimestamp(Insert(op, s), ts) == if op.timestamp == ts then [op] + WithTimestamp(s, ts) else WithTimestamp(s, ts)
  {
    if s != [] && op.timestamp > s[0].timestamp {
      InsertWithTimestamp(op, s[1..], ts);
      assert Insert(op, s) == [s[0]] + Insert(op, s[1..]);
    } else if s != [] {
      assert Insert(op, s) == [op] + s;
    }
  }

  /** The sort is stable: entries that share a timestamp keep the table's insertion order. */
  lemma {:induction false} SortByTimeStable(t: Table, ts: int)
    ensures WithTimestamp(SortByTime(t), ts) == WithTimestamp(t, ts)
  {
    if t != [] {
      SortByTimeStable(t[1..], ts);
      InsertWithTimestamp(t[0], SortByTime(t[1..]), ts);
    }
  }

  // ---------------------------------------------------------------------------
  // The split of the snapshot into `setOperations` and `removeOperations`.

  /** A set whose value is `undefined` is dropped by the flush. */
  predicate Deliverable(op: QueuedOperation)
  {
    op.kind == SetOp && op.value != Undefined
  }

  /** `setOperations`: the deliverable sets, in snapshot order. */
  function SetOps(ops: seq<QueuedOperation>): seq<QueuedOperation>
  {
    if ops == [] then []
    else if Deliverable(ops[0]) then [ops[0]] + SetOps(ops[1..])
    else SetOps(ops[1..])
  }

  /** The removes, in snapshot order. */
  function RemoveOps(ops: seq<QueuedOperation>): seq<QueuedOperation>
  {
    if ops == [] then []
    else if ops[0].kind == RemoveOp then [ops[0]] + RemoveOps(ops[1..])
    else RemoveOps(ops[1..])
  }

  /** An element of `removeOperations`: `{ key, options }`. */
  datatype RemoveRequest = RemoveRequest(key: string, options: Options)

  /** `removeOperations` */
  function RemoveRequests(ops: seq<QueuedOperation>): seq<RemoveRequest>
  {
    if ops == [] then []
    else if ops[0].kind == RemoveOp then [RemoveRequest(ops[0].key, ops[0].options)] + RemoveRequests(ops[1..])
    else RemoveRequests(ops[1..])
  }

  lemma {:induction false} SetOpsAppend(a: seq<QueuedOperation>, b: seq<QueuedOperation>)
    ensures SetOps(a + b) == SetOps(a) + SetOps(b)
  {
    if a == [] {
      assert a + b == b;
    } else {
      var c := a + b;
      assert c[0] == a[0] && c[1..] == a[1..] + b;
      SetOpsAppend(a[1..], b);
      if Deliverable(a[0]) {
        assert SetOps(c) == [a[0]] + (SetOps(a[1..]) + SetOps(b));
        assert SetOps(a) == [a[0]] + SetOps(a[1..]);
      } else {
        assert SetOps(c) == SetOps(a[1..] + b);
      }
    }
  }

  lemma {:induction false} RemoveOpsAppend(a: seq<QueuedOperation>, b: seq<QueuedOperation>)
    ensures RemoveOps(a + b) == RemoveOps(a) + RemoveOps(b)
  {
    if a == [] {
      assert a + b == b;
    } else {
      var c := a + b;
      assert c[0] == a[0] && c[1..] == a[1..] + b;
      RemoveOpsAppend(a[1..], b);
      if a[0].kind == RemoveOp {
        assert RemoveOps(c) == [a[0]] + (RemoveOps(a[1..]) + RemoveOps(b));
        assert RemoveOps(a) == [a[0]] + RemoveOps(a[1..]);
      } else {
        assert RemoveOps(c) == RemoveOps(a[1..] + b);
      }
    }
  }

  lemma {:induction false} RemoveRequestsAppend(a: seq<QueuedOperation>, b: seq<QueuedOperation>)
    ensures RemoveRequests(a + b) == RemoveRequests(a) + RemoveRequests(b)
  {
    if a == [] {
      assert a + b == b;
    } else {
      var c := a + b;
      assert c[0] == a[0] && c[1..] == a[1..] + b;
      RemoveRequestsAppend(a[1..], b);
      if a[0].kind == RemoveOp {
        assert RemoveRequests(c) == [RemoveRequest(a[0].key, a[0].options)] + (RemoveRequests(a[1..]) + RemoveRequests(b));
        assert RemoveRequests(a) == [RemoveRequest(a[0].key, a[0].options)] + RemoveRequests(a[1..]);
      } else {
        assert RemoveRequests(c) == RemoveRequests(a[1..] + b);
      }
    }
  }

  /** The partition loop of `flushQueue`: one pass over the snapshot, pushing each set with a
      defined value to `sets` and each remove to `removes`. */
  method Partition(ops: seq<QueuedOperation>) returns (sets: seq<QueuedOperation>, removes: seq<RemoveRequest>)
    ensures sets == SetOps(ops) && removes == RemoveRequests(ops)
  {
    sets, removes := [], [];
    for i := 0 to |ops|
      invariant sets == SetOps(ops[..i]) && removes == RemoveRequests(ops[..i])
    {
      var op := ops[i];
      SetOpsAppend(ops[..i], [op]);
      RemoveRequestsAppend(ops[..i], [op]);
      assert ops[..i + 1] == ops[..i] + [op];
      if op.kind == SetOp && op.value != Undefined {
        sets := sets + [op];
      } else if op.kind == RemoveOp {
        removes := removes + [RemoveRequest(op.key, op.options)];
      }
    }
    assert ops[..|ops|] == ops;
  }

  /** Every entry of the snapshot lands in exactly the list its kind says, and the split
      drops only the sets whose value is undefined. */
  lemma {:induction false} SplitMembership(ops: seq<QueuedOperation>, x: QueuedOperation)
    ensures x in SetOps(ops) <==> x in ops && Deliverable(x)
    ensures x in RemoveOps(ops) <==> x in ops && x.kind == RemoveOp
  {
    if ops != [] {
      SplitMembership(ops[1..], x);
      assert ops == [ops[0]] + ops[1..];
    }
  }

  lemma {:induction false} SetOpsSorted(ops: seq<QueuedOperation>)
    requires SortedByTime(ops)
    ensures SortedByTime(SetOps(ops))
  {
    if ops != [] {
      SetOpsSorted(ops[1..]);
      if Deliverable(ops[0]) {
        var r := SetOps(ops[1..]);
        forall x | x in r ensures ops[0].timestamp <= x.timestamp {
          SplitMembership(ops[1..], x);
          var j :| 0 <= j < |ops[1..]| && ops[1..][j] == x;
          assert ops[j + 1] == x;
        }
        forall i, j | 0 <= i < j < |[ops[0]] + r| ensures ([ops[0]] + r)[i].timestamp <= ([ops[0]] + r)[j].timestamp {
          if i == 0 { assert ([ops[0]] + r)[j] == r[j - 1]; assert r[j - 1] in r; }
        }
      }
    }
  }

  // ---------------------------------------------------------------------------
  // Delivery of the split to the backend.

  predicate NoneRaw(sets: seq<QueuedOperation>)
  {
    forall i | 0 <= i < |sets| :: !sets[i].isRaw
  }

  /** The bulk path: the backend has `setItems`, there is more than one set, none is raw. */
  predicate UsesBulk(sets: seq<QueuedOperation>, caps: Capabilities)
  {
    caps.setItems && |sets| > 1 && NoneRaw(sets)
  }

  function Entries(sets: seq<QueuedOperation>): (es: seq<Entry>)
    ensures |es| == |sets|
    ensures forall i | 0 <= i < |sets| :: es[i] == Entry(sets[i].key, sets[i].value, sets[i].options)
  {
    if sets == [] then [] else [Entry(sets[0].key, sets[0].value, sets[0].options)] + Entries(sets[1..])
  }

  /** The individual call for one set: raw values go to `setItemRaw` when the backend has it,
      everything else to `setItem` (`driver.setItem?.(...)`, so nothing when it is absent). */
  function SetCall(op: QueuedOperation, caps: Capabilities): seq<BackendCall>
  {
    if op.isRaw && caps.setItemRaw then [SetItemRawCall(op.key, op.value, op.options)]
    else if caps.setItem then [SetItemCall(op.key, op.value, op.options)]
    else []
  }

  function IndividualSets(sets: seq<QueuedOperation>, caps: Capabilities): seq<BackendCall>
  {
    if sets == [] then [] else SetCall(sets[0], caps) + IndividualSets(sets[1..], caps)
  }

  /** The calls that deliver `setOperations`. */
  function SetDelivery(sets: seq<QueuedOperation>, caps: Capabilities): seq<BackendCall>
  {
    if sets == [] then []
    else if UsesBulk(sets, caps) then [SetItemsCall(Entries(sets))]
    else IndividualSets(sets, caps)
  }

  /** The calls that deliver `removeOperations`: one `removeItem` each, never batched. */
  function RemoveDelivery(removes: seq<RemoveRequest>, caps: Capabilities): seq<BackendCall>
  {
    if removes == [] || !caps.removeItem then []
    else [RemoveItemCall(removes[0].key, removes[0].options)] + RemoveDelivery(removes[1..], caps)
  }

  /** Every call a flush of the table makes when no backend call fails: the sets first, then,
      once they have settled, the removes. */
  function FlushCalls(t: Table, caps: Capabilities): seq<BackendCall>
  {
    var ops := SortByTime(t);
    SetDelivery(SetOps(ops), caps) + RemoveDelivery(RemoveRequests(ops), caps)
  }

  /** Sets whose backend call is individual go one call per set, raw ones to `setItemRaw`
      exactly when the backend has it. */
  lemma {:induction false} IndividualRouting(sets: seq<QueuedOperation>, caps: Capabilities)
    requires forall i | 0 <= i < |sets| :: Admitted(sets[i], caps) && sets[i].kind == SetOp
    ensures |IndividualSets(sets, caps)| == |sets|
    ensures forall i | 0 <= i < |sets| ::
      IndividualSets(sets, caps)[i] ==
        if sets[i].isRaw && caps.setItemRaw then SetItemRawCall(sets[i].key, sets[i].value, sets[i].options)
        else SetItemCall(sets[i].key, sets[i].value, sets[i].options)
  {
    if sets != [] {
      IndividualRouting(sets[1..], caps);
    }
  }

  /** The single bulk `setItems` call is made exactly when UsesBulk holds; otherwise no call
      of the set delivery is a bulk call. */
  lemma {:induction false} BulkExactlyWhenAllowed(sets: seq<QueuedOperation>, caps: Capabilities)
    ensures UsesBulk(sets, caps) ==> SetDelivery(sets, caps) == [SetItemsCall(Entries(sets))]
    ensures !UsesBulk(sets, caps) ==> forall c | c in SetDelivery(sets, caps) :: c.SetItemCall? || c.SetItemRawCall?
  {
    if !UsesBulk(sets, caps) && sets != [] {
      IndividualOnly(sets, caps);
    }
  }

  lemma {:induction false} IndividualOnly(sets: seq<QueuedOperation>, caps: Capabilities)
    ensures forall c | c in IndividualSets(sets, caps) :: c.SetItemCall? || c.SetItemRawCall?
  {
    if sets != [] {
      IndividualOnly(sets[1..], caps);
    }
  }

  /** Removes are always individual `removeItem` calls, one per remove, in order. */
  lemma {:induction false} RemovesNeverBatched(removes: seq<RemoveRequest>, caps: Capabilities)
    ensures caps.removeItem ==> |RemoveDelivery(removes, caps)| == |removes|
    ensures !caps.removeItem ==> RemoveDelivery(removes, caps) == []
    ensures forall i | 0 <= i < |RemoveDelivery(removes, caps)| ::
      RemoveDelivery(removes, caps)[i] == RemoveItemCall(removes[i].key, removes[i].options)
  {
    if removes != [] && caps.removeItem {
      RemovesNeverBatched(removes[1..], caps);
    }
  }
}
