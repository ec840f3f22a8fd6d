/** What a completed flush does to the backend's data. Against the reference store of module
    Backend, the calls of a flush leave every key exactly as the pending table said: the
    value of its pending set, absent after a pending remove, untouched otherwise. Keys are
    unique in the table, so the order of the concurrent calls does not matter. */
module FlushDelivery {
  import opened Values
  import opened Backend
  import opened PendingTable

  function Get(st: Store, key: string): Option<Value>
  {
    if key in st then Some(st[key]) else None
  }

  /** The effect a table entry is meant to have on the store. */
  function ApplyOp(st: Store, op: QueuedOperation): Store
  {
    if Deliverable(op) then st[op.key := op.value]
    else if op.kind == RemoveOp then st - {op.key}
    else st
  }

  function ApplyOps(st: Store, ops: seq<QueuedOperation>): Store
    decreases |ops|
  {
    if ops == [] then st else ApplyOps(ApplyOp(st, ops[0]), ops[1..])
  }

  /** The entries for one key, in order. */
  function FilterKey(ops: seq<QueuedOperation>, key: string): seq<QueuedOperation>
  {
    if ops == [] then []
    else if ops[0].key == key then [ops[0]] + FilterKey(ops[1..], key)
    else FilterKey(ops[1..], key)
  }

  /** The effect of entries for one key on what the store holds at that key. */
  function EffectsAt(g: Option<Value>, ops: seq<QueuedOperation>): Option<Value>
    decreases |ops|
  {
    if ops == [] then g
    else
      var g' := if Deliverable(ops[0]) then Some(ops[0].value) else if ops[0].kind == RemoveOp then None else g;
      EffectsAt(g', ops[1..])
  }

  /** Only the entries for a key decide what the store holds there afterwards. */
  lemma {:induction false} ApplyOpsAt(st: Store, ops: seq<QueuedOperation>, key: string)
    ensures Get(ApplyOps(st, ops), key) == EffectsAt(Get(st, key), FilterKey(ops, key))
    decreases |ops|
  {
    if ops != [] {
      ApplyOpsAt(ApplyOp(st, ops[0]), ops[1..], key);
    }
  }

  lemma {:induction false} ApplyCallsAppend(st: Store, a: seq<BackendCall>, b: seq<BackendCall>)
    ensures ApplyCalls(st, a + b) == ApplyCalls(ApplyCalls(st, a), b)
    decreases |a|
  {
    if a == [] {
      assert a + b == b;
    } else {
      ApplyCallsAppend(ApplyCall(st, a[0]), a[1..], b);
      assert (a + b)[0] == a[0] && (a + b)[1..] == a[1..] + b;
    }
  }

  lemma {:induction false} EntriesEffect(st: Store, sets: seq<QueuedOperation>)
    requires forall i | 0 <= i < |sets| :: Deliverable(sets[i])
    ensures ApplyEntries(st, Entries(sets)) == ApplyOps(st, sets)
    decreases |sets|
  {
    if sets != [] {
      EntriesEffect(st[sets[0].key := sets[0].value], sets[1..]);
      assert Entries(sets)[1..] == Entries(sets[1..]);
    }
  }

  lemma {:induction false} IndividualEffect(st: Store, sets: seq<QueuedOperation>, caps: Capabilities)
    requires forall i | 0 <= i < |sets| :: Deliverable(sets[i]) && Admitted(sets[i], caps)
    ensures ApplyCalls(st, IndividualSets(sets, caps)) == ApplyOps(st, sets)
    decreases |sets|
  {
    if sets != [] {
      var c := SetCall(sets[0], caps);
      assert |c| == 1;
      ApplyCallsAppend(st, c, IndividualSets(sets[1..], caps));
      IndividualEffect(ApplyOp(st, sets[0]), sets[1..], caps);
    }
  }

  /** Whether bulk or individual, the set calls write each set's value under its key. */
  lemma SetDeliveryEffect(st: Store, sets: seq<QueuedOperation>, caps: Capabilities)
    requires forall i | 0 <= i < |sets| :: Deliverable(sets[i]) && Admitted(sets[i], caps)
    ensures ApplyCalls(st, SetDelivery(sets, caps)) == ApplyOps(st, sets)
  {
    if sets == [] {
    } else if UsesBulk(sets, caps) {
      EntriesEffect(st, sets);
    } else {
      IndividualEffect(st, sets, caps);
    }
  }

  lemma {:induction false} RemoveDeliveryEffect(st: Store, ops: seq<QueuedOperation>, caps: Capabilities)
    requires forall i | 0 <= i < |ops| :: ops[i].kind == RemoveOp ==> caps.removeItem
    ensures ApplyCalls(st, RemoveDelivery(RemoveRequests(ops), caps)) == ApplyOps(st, RemoveOps(ops))
    decreases |ops|
  {
    if ops != [] {
      if ops[0].kind == RemoveOp {
        RemoveDeliveryEffect(st - {ops[0].key}, ops[1..], caps);
      } else {
        RemoveDeliveryEffect(st, ops[1..], caps);
      }
    }
  }

  lemma {:induction false} FilterKeySplit(ops: seq<QueuedOperation>, key: string)
    ensures FilterKey(SetOps(ops), key) == SetOps(FilterKey(ops, key))
    ensures FilterKey(RemoveOps(ops), key) == RemoveOps(FilterKey(ops, key))
  {
    if ops != [] {
      FilterKeySplit(ops[1..], key);
    }
  }

  lemma {:induction false} FilterKeyCount(s: seq<QueuedOperation>, key: string, x: QueuedOperation)
    ensures multiset(FilterKey(s, key))[x] == if x.key == key then multiset(s)[x] else 0
  {
    if s != [] {
      FilterKeyCount(s[1..], key, x);
      assert s == [s[0]] + s[1..];
    }
  }

  /** Two orderings of the same entries hold the same entries for each key. */
  lemma FilterKeyPermutation(s: seq<QueuedOperation>, t: seq<QueuedOperation>, key: string)
    requires multiset(s) == multiset(t)
    ensures multiset(FilterKey(s, key)) == multiset(FilterKey(t, key))
  {
    forall x ensures multiset(FilterKey(s, key))[x] == multiset(FilterKey(t, key))[x] {
      FilterKeyCount(s, key, x);
      FilterKeyCount(t, key, x);
    }
  }

  lemma {:induction false} FilterKeyUnique(t: Table, key: string)
    requires UniqueKeys(t)
    ensures FilterKey(t, key) == if Lookup(t, key).Some? then [Lookup(t, key).value] else []
  {
    if t != [] {
      assert UniqueKeys(t[1..]) by {
        forall i, j | 0 <= i < j < |t[1..]| ensures t[1..][i].key != t[1..][j].key {
          assert t[1..][i] == t[i + 1] && t[1..][j] == t[j + 1];
        }
      }
      FilterKeyUnique(t[1..], key);
      if t[0].key == key {
        forall i | 0 <= i < |t[1..]| ensures t[1..][i].key != key {
          assert t[1..][i] == t[i + 1];
        }
      }
    }
  }

  /** A sequence with the multiset of [] or [x] is [] or [x]. */
  lemma AtMostOne(s: seq<QueuedOperation>, r: seq<QueuedOperation>)
    requires |r| <= 1 && multiset(s) == multiset(r)
    ensures s == r
  {
    assert |s| == |multiset(s)| == |multiset(r)| == |r|;
    if |r| == 1 {
      assert s[0] in multiset(r);
    }
  }

  /** What the backend holds at `key` once every call of a flush of `t` has been applied. */
  function Expected(st: Store, t: Table, key: string): Option<Value>
  {
    match Lookup(t, key)
    case None => Get(st, key)
    case Some(op) =>
      if op.kind == RemoveOp then None
      else if op.value == Undefined then Get(st, key)
      else Some(op.value)
  }

  /** The entries of the sorted snapshot are the table's entries, so each was admitted. */
  lemma SnapshotAdmitted(t: Table, s: seq<QueuedOperation>, caps: Capabilities)
    requires AllAdmitted(t, caps) && s == SortByTime(t)
    ensures forall i | 0 <= i < |SetOps(s)| :: Deliverable(SetOps(s)[i]) && Admitted(SetOps(s)[i], caps)
    ensures forall i | 0 <= i < |s| :: s[i].kind == RemoveOp ==> caps.removeItem
  {
    SortByTimeSorted(t);
    forall x | x in s ensures Admitted(x, caps) {
      assert x in multiset(t);
      var j :| 0 <= j < |t| && t[j] == x;
    }
    var sets := SetOps(s);
    forall i | 0 <= i < |sets| ensures Deliverable(sets[i]) && Admitted(sets[i], caps) {
      assert sets[i] in sets;
      SplitMembership(s, sets[i]);
    }
    forall i | 0 <= i < |s| ensures s[i].kind == RemoveOp ==> caps.removeItem {
      assert s[i] in s;
    }
  }

  /** The calls of a flush have the effect of its sets followed by its removes. */
  lemma FlushCallsEffect(st: Store, t: Table, caps: Capabilities)
    requires AllAdmitted(t, caps)
    ensures ApplyCalls(st, FlushCalls(t, caps)) == ApplyOps(ApplyOps(st, SetOps(SortByTime(t))), RemoveOps(SortByTime(t)))
  {
    var s := SortByTime(t);
    SnapshotAdmitted(t, s, caps);
    var sets := SetOps(s);
    ApplyCallsAppend(st, SetDelivery(sets, caps), RemoveDelivery(RemoveRequests(s), caps));
    SetDeliveryEffect(st, sets, caps);
    RemoveDeliveryEffect(ApplyOps(st, sets), s, caps);
  }

  /** For the snapshot, the entries for a key are the table's one entry for it, if any. */
  lemma SnapshotAtKey(t: Table, key: string)
    requires UniqueKeys(t)
    ensures FilterKey(SortByTime(t), key) == if Lookup(t, key).Some? then [Lookup(t, key).value] else []
  {
    SortByTimeSorted(t);
    FilterKeyPermutation(SortByTime(t), t, key);
    FilterKeyUnique(t, key);
    AtMostOne(FilterKey(SortByTime(t), key), FilterKey(t, key));
  }

  /** A flush delivers the table: after its calls (in the order issued; the keys are distinct,
      so no order of the concurrent calls could differ) every key holds what the pending
      entry for it said, and keys with no entry are untouched. */
  lemma FlushDeliversTable(st: Store, t: Table, caps: Capabilities, key: string)
    requires UniqueKeys(t) && AllAdmitted(t, caps)
    ensures Get(ApplyCalls(st, FlushCalls(t, caps)), key) == Expected(st, t, key)
  {
    var s := SortByTime(t);
    var sets, removes := SetOps(s), RemoveOps(s);
    FlushCallsEffect(st, t, caps);
    ApplyOpsAt(ApplyOps(st, sets), removes, key);
    ApplyOpsAt(st, sets, key);
    FilterKeySplit(s, key);
    SnapshotAtKey(t, key);
    var g := Get(st, key);
    assert Get(ApplyCalls(st, FlushCalls(t, caps)), key)
        == EffectsAt(EffectsAt(g, SetOps(FilterKey(s, key))), RemoveOps(FilterKey(s, key)));
  }
}
