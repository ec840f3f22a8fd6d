/** Concrete runs of the queue driver against the backend used by its tests, which offers
    `setItem`, `setItems`, `removeItem` and `dispose` only. */
module QueueScenarios {
  import opened Values
  import opened Backend
  import opened PendingTable
  import opened QueueMachine
  import opened QueueReads

  const MockCaps := Capabilities(
    setItem := true, setItems := true, setItemRaw := false, removeItem := true,
    getItems := false, getItemRaw := false, clear := false, dispose := true)

  const TestConfig := Config(batchSize := 3, flushInterval := 1000, maxQueueSize := 1000, mergeUpdates := true)

  const NoOptions: Options := map[]

  function Set(key: string, value: string, now: int): Event
  {
    SetItemEvent(key, Text(value), NoOptions, now)
  }

  /** Three sets of one key then the timer: a single `setItem` with the last value. */
  lemma MergedUpdatesFlushOnce()
    ensures Run(Initial, TestConfig, MockCaps,
      [Set("key1", "value1", 1), Set("key1", "value2", 2), Set("key1", "value3", 3), TimerFired, SetsSettled(false)])
      == Some(Initial.(log := [SetItemCall("key1", Text("value3"), NoOptions)]))
  {
    var op1 := QueuedOperation(SetOp, "key1", Text("value1"), NoOptions, 1, false);
    var op2 := QueuedOperation(SetOp, "key1", Text("value2"), NoOptions, 2, false);
    var op3 := QueuedOperation(SetOp, "key1", Text("value3"), NoOptions, 3, false);
    var s1 := Initial.(table := [op1], timerArmed := true);
    var s2 := s1.(table := [op2]);
    var s3 := s1.(table := [op3]);
    assert Step(Initial, TestConfig, MockCaps, Set("key1", "value1", 1)) == s1;
    assert Admit([op1], op2, true) == [op2];
    assert Step(s1, TestConfig, MockCaps, Set("key1", "value2", 2)) == s2;
    assert Admit([op2], op3, true) == [op3];
    assert Step(s2, TestConfig, MockCaps, Set("key1", "value3", 3)) == s3;
    var call := SetItemCall("key1", Text("value3"), NoOptions);
    assert SortByTime([op3]) == [op3];
    assert SetOps([op3]) == [op3] && RemoveRequests([op3]) == [];
    assert SetDelivery([op3], MockCaps) == [call];
    var s4 := Initial.(flushing := true, phase := AwaitingSets([]), log := [call]);
    assert Step(s3, TestConfig, MockCaps, TimerFired) == s4;
    assert Step(s4, TestConfig, MockCaps, SetsSettled(false)) == Initial.(log := [call]);
  }

  function SetOpAt(key: string, value: string, now: int): QueuedOperation
  {
    QueuedOperation(SetOp, key, Text(value), NoOptions, now, false)
  }

  function EntryOf(key: string, value: string): Entry
  {
    Entry(key, Text(value), NoOptions)
  }

  /** Snapshots of operations enqueued in time order, and their split. */
  lemma Sorted2(a: QueuedOperation, b: QueuedOperation)
    requires a.timestamp <= b.timestamp
    ensures SortByTime([a, b]) == [a, b]
    ensures Deliverable(a) && Deliverable(b) ==> SetOps([a, b]) == [a, b] && RemoveRequests([a, b]) == []
  {
    SortByTimeSortedInput([a, b]);
    assert [a, b][1..] == [b] && [b][1..] == [];
    assert SetOps([b]) == if Deliverable(b) then [b] else [];
    assert RemoveRequests([b]) == if b.kind == RemoveOp then [RemoveRequest(b.key, b.options)] else [];
  }

  lemma Sorted3(a: QueuedOperation, b: QueuedOperation, c: QueuedOperation)
    requires a.timestamp <= b.timestamp <= c.timestamp
    ensures SortByTime([a, b, c]) == [a, b, c]
    ensures Deliverable(a) && Deliverable(b) && Deliverable(c) ==> SetOps([a, b, c]) == [a, b, c] && RemoveRequests([a, b, c]) == []
    ensures Deliverable(a) && b.kind == RemoveOp && Deliverable(c) ==>
      SetOps([a, b, c]) == [a, c] && RemoveRequests([a, b, c]) == [RemoveRequest(b.key, b.options)]
  {
    SortByTimeSortedInput([a, b, c]);
    assert [a, b, c][1..] == [b, c] && [b, c][1..] == [c] && [c][1..] == [];
    assert SetOps([c]) == if Deliverable(c) then [c] else [];
    assert RemoveRequests([c]) == if c.kind == RemoveOp then [RemoveRequest(c.key, c.options)] else [];
    assert SetOps([b, c]) == (if Deliverable(b) then [b] else []) + SetOps([c]);
    assert RemoveRequests([b, c]) == (if b.kind == RemoveOp then [RemoveRequest(b.key, b.options)] else []) + RemoveRequests([c]);
  }

  /** The third distinct key reaches the batch size of 3: one bulk `setItems` at once. */
  lemma BatchSizeFlushesInBulk()
    ensures Run(Initial, TestConfig, MockCaps, [Set("key1", "value1", 1), Set("key2", "value2", 2), Set("key3", "value3", 3)])
      == Some(Initial.(flushing := true, phase := AwaitingSets([]),
                       log := [SetItemsCall([EntryOf("key1", "value1"), EntryOf("key2", "value2"), EntryOf("key3", "value3")])]))
  {
    var op1, op2, op3 := SetOpAt("key1", "value1", 1), SetOpAt("key2", "value2", 2), SetOpAt("key3", "value3", 3);
    var s1 := Initial.(table := [op1], timerArmed := true);
    assert Step(Initial, TestConfig, MockCaps, Set("key1", "value1", 1)) == s1;
    assert Admit([op1], op2, true) == [op1, op2];
    var s2 := s1.(table := [op1, op2]);
    assert Step(s1, TestConfig, MockCaps, Set("key2", "value2", 2)) == s2;
    assert Admit([op1, op2], op3, true) == [op1, op2, op3];
    Sorted3(op1, op2, op3);
    var bulk := SetItemsCall([EntryOf("key1", "value1"), EntryOf("key2", "value2"), EntryOf("key3", "value3")]);
    assert Entries([op1, op2, op3]) == bulk.entries;
    assert UsesBulk([op1, op2, op3], MockCaps);
    var s3 := Initial.(flushing := true, phase := AwaitingSets([]), log := [bulk]);
    assert Step(s2, TestConfig, MockCaps, Set("key3", "value3", 3)) == s3;
  }

  /** A set, a remove and a set: the two sets in one bulk call, then the remove on its own
      once the sets have settled. */
  lemma MixedSetsThenRemoves()
    ensures Run(Initial, TestConfig, MockCaps,
      [Set("key1", "value1", 1), RemoveItemEvent("key2", NoOptions, 2), Set("key3", "value3", 3), SetsSettled(false), RemovesSettled(false)])
      == Some(Initial.(log := [SetItemsCall([EntryOf("key1", "value1"), EntryOf("key3", "value3")]), RemoveItemCall("key2", NoOptions)]))
  {
    var es := [Set("key1", "value1", 1), RemoveItemEvent("key2", NoOptions, 2), Set("key3", "value3", 3), SetsSettled(false), RemovesSettled(false)];
    Tails(es[0], es[1], es[2], es[3], es[4]);
    MixedEnqueues();
    MixedSettles();
    var s1 := Step(Initial, TestConfig, MockCaps, es[0]);
    var s2 := Step(s1, TestConfig, MockCaps, es[1]);
    RunCons(s2, TestConfig, MockCaps, es[2..]);
    RunCons(s1, TestConfig, MockCaps, es[1..]);
    RunCons(Initial, TestConfig, MockCaps, es);
  }

  /** The two awaits of the flush `MixedEnqueues` started settle: the remove goes out alone. */
  lemma MixedSettles()
    ensures
      var bulk := SetItemsCall([EntryOf("key1", "value1"), EntryOf("key3", "value3")]);
      var s3 := Initial.(flushing := true, phase := AwaitingSets([RemoveRequest("key2", NoOptions)]), log := [bulk]);
      Run(s3, TestConfig, MockCaps, [SetsSettled(false), RemovesSettled(false)])
        == Some(Initial.(log := [bulk, RemoveItemCall("key2", NoOptions)]))
  {
    var bulk := SetItemsCall([EntryOf("key1", "value1"), EntryOf("key3", "value3")]);
    var s3 := Initial.(flushing := true, phase := AwaitingSets([RemoveRequest("key2", NoOptions)]), log := [bulk]);
    var s4 := s3.(phase := AwaitingRemoves, log := [bulk, RemoveItemCall("key2", NoOptions)]);
    assert RemoveDelivery([RemoveRequest("key2", NoOptions)], MockCaps) == [RemoveItemCall("key2", NoOptions)];
    assert Step(s3, TestConfig, MockCaps, SetsSettled(false)) == s4;
    assert Step(s4, TestConfig, MockCaps, RemovesSettled(false)) == Initial.(log := s4.log);
    assert [SetsSettled(false), RemovesSettled(false)][1..] == [RemovesSettled(false)];
  }

  /** A run takes its first event, then the rest. */
  lemma RunCons(s: QueueState, cfg: Config, caps: Capabilities, es: seq<Event>)
    requires |es| > 0 && Enabled(s, es[0])
    ensures Run(s, cfg, caps, es) == Run(Step(s, cfg, caps, es[0]), cfg, caps, es[1..])
  {
  }

  lemma Tails(a: Event, b: Event, c: Event, d: Event, e: Event)
    ensures var es := [a, b, c, d, e];
      es[1..] == [b, c, d, e] && es[2..] == [c, d, e] && es[3..] == [d, e]
      && es[1..][0] == b && es[2..][0] == c && es[1..][1..] == es[2..] && es[2..][1..] == es[3..]
  {
  }

  /** The enqueues of `MixedSetsThenRemoves`: the third reaches the batch size and starts the
      flush with the sets in one bulk call and the remove held back. */
  lemma MixedEnqueues()
    ensures
      var s1 := Step(Initial, TestConfig, MockCaps, Set("key1", "value1", 1));
      var s2 := Step(s1, TestConfig, MockCaps, RemoveItemEvent("key2", NoOptions, 2));
      Step(s2, TestConfig, MockCaps, Set("key3", "value3", 3)) ==
        Initial.(flushing := true, phase := AwaitingSets([RemoveRequest("key2", NoOptions)]),
                 log := [SetItemsCall([EntryOf("key1", "value1"), EntryOf("key3", "value3")])])
  {
    var op1, op3 := SetOpAt("key1", "value1", 1), SetOpAt("key3", "value3", 3);
    var op2 := QueuedOperation(RemoveOp, "key2", Undefined, NoOptions, 2, false);
    var s1 := Initial.(table := [op1], timerArmed := true);
    assert Step(Initial, TestConfig, MockCaps, Set("key1", "value1", 1)) == s1;
    assert Admit([op1], op2, true) == [op1, op2];
    var s2 := s1.(table := [op1, op2]);
    assert Step(s1, TestConfig, MockCaps, RemoveItemEvent("key2", NoOptions, 2)) == s2;
    assert Admit([op1, op2], op3, true) == [op1, op2, op3];
    Sorted3(op1, op2, op3);
    assert Entries([op1, op3]) == [EntryOf("key1", "value1"), EntryOf("key3", "value3")];
    assert UsesBulk([op1, op3], MockCaps);
  }

  /** `dispose` with two pending sets: they are delivered, then the backend is disposed. */
  lemma DisposeDeliversPending()
    ensures Run(Initial, TestConfig, MockCaps, [Set("key1", "value1", 1), Set("key2", "value2", 2), DisposeEvent, SetsSettled(false)])
      == Some(Initial.(disposed := true, log := [SetItemsCall([EntryOf("key1", "value1"), EntryOf("key2", "value2")]), DisposeCall]))
  {
    var op1, op2 := SetOpAt("key1", "value1", 1), SetOpAt("key2", "value2", 2);
    var s1 := Initial.(table := [op1], timerArmed := true);
    assert Step(Initial, TestConfig, MockCaps, Set("key1", "value1", 1)) == s1;
    assert Admit([op1], op2, true) == [op1, op2];
    var s2 := s1.(table := [op1, op2]);
    assert Step(s1, TestConfig, MockCaps, Set("key2", "value2", 2)) == s2;
    Sorted2(op1, op2);
    var bulk := SetItemsCall([EntryOf("key1", "value1"), EntryOf("key2", "value2")]);
    assert Entries([op1, op2]) == bulk.entries;
    assert UsesBulk([op1, op2], MockCaps);
    var s3 := Initial.(flushing := true, phase := AwaitingSets([]), waiter := Some(DisposeWaiter), log := [bulk]);
    assert Step(s2, TestConfig, MockCaps, DisposeEvent) == s3;
    assert Step(s3, TestConfig, MockCaps, SetsSettled(false)) == Initial.(disposed := true, log := [bulk, DisposeCall]);
  }

  /** With `maxQueueSize` 2 and `batchSize` 10, the second key forces a flush; the debounce
      timer armed by the first stays armed. */
  lemma MaxQueueSizeForcesFlush()
    ensures Run(Initial, TestConfig.(batchSize := 10, flushInterval := 10000, maxQueueSize := 2), MockCaps,
      [Set("key1", "value1", 1), Set("key2", "value2", 2)])
      == Some(Initial.(timerArmed := true, flushing := true, phase := AwaitingSets([]),
                       log := [SetItemsCall([EntryOf("key1", "value1"), EntryOf("key2", "value2")])]))
  {
    var cfg := TestConfig.(batchSize := 10, flushInterval := 10000, maxQueueSize := 2);
    var op1, op2 := SetOpAt("key1", "value1", 1), SetOpAt("key2", "value2", 2);
    var s1 := Initial.(table := [op1], timerArmed := true);
    assert Step(Initial, cfg, MockCaps, Set("key1", "value1", 1)) == s1;
    assert Admit([op1], op2, true) == [op1, op2];
    Sorted2(op1, op2);
    var bulk := SetItemsCall([EntryOf("key1", "value1"), EntryOf("key2", "value2")]);
    assert Entries([op1, op2]) == bulk.entries;
    assert UsesBulk([op1, op2], MockCaps);
    assert Step(s1, cfg, MockCaps, Set("key2", "value2", 2)) ==
      Initial.(timerArmed := true, flushing := true, phase := AwaitingSets([]), log := [bulk]);
  }

  /** A write made while `dispose`'s own flush is suspended: the flush re-arms the timer for
      it, `dispose` then disposes the backend, and the timer's flush finds the driver disposed. */
  lemma DisposeOwnFlushStrandsWrite()
    ensures Run(Initial, TestConfig, MockCaps,
      [Set("key1", "value1", 1), DisposeEvent, Set("key2", "value2", 2), SetsSettled(false), TimerFired])
      == Some(Initial.(table := [SetOpAt("key2", "value2", 2)], disposed := true,
                       log := [SetItemCall("key1", Text("value1"), NoOptions), DisposeCall]))
  {
    var op1, op2 := SetOpAt("key1", "value1", 1), SetOpAt("key2", "value2", 2);
    var s1 := Initial.(table := [op1], timerArmed := true);
    assert Step(Initial, TestConfig, MockCaps, Set("key1", "value1", 1)) == s1;
    assert SortByTime([op1]) == [op1];
    assert SetOps([op1]) == [op1] && RemoveRequests([op1]) == [];
    var call := SetItemCall("key1", Text("value1"), NoOptions);
    assert SetDelivery([op1], MockCaps) == [call];
    var s2 := Initial.(flushing := true, phase := AwaitingSets([]), waiter := Some(DisposeWaiter), log := [call]);
    assert Step(s1, TestConfig, MockCaps, DisposeEvent) == s2;
    var s3 := s2.(table := [op2]);
    assert Step(s2, TestConfig, MockCaps, Set("key2", "value2", 2)) == s3;
    var s4 := Initial.(table := [op2], timerArmed := true, disposed := true, log := [call, DisposeCall]);
    assert Step(s3, TestConfig, MockCaps, SetsSettled(false)) == s4;
    assert Step(s4, TestConfig, MockCaps, TimerFired) == s4.(timerArmed := false);
  }

  /** A write made while the timer's flush is suspended, followed by `dispose`: the backend is
      disposed, and the write stays in the table of a disposed driver, never delivered. */
  lemma DisposeDuringFlushStrandsWrite()
    ensures Run(Initial, TestConfig, MockCaps,
      [Set("key1", "value1", 1), TimerFired, Set("key2", "value2", 2), DisposeEvent, SetsSettled(false)])
      == Some(Initial.(table := [SetOpAt("key2", "value2", 2)], disposed := true,
                       log := [SetItemCall("key1", Text("value1"), NoOptions), DisposeCall]))
  {
    var op1, op2 := SetOpAt("key1", "value1", 1), SetOpAt("key2", "value2", 2);
    var s1 := Initial.(table := [op1], timerArmed := true);
    assert Step(Initial, TestConfig, MockCaps, Set("key1", "value1", 1)) == s1;
    assert SortByTime([op1]) == [op1];
    assert SetOps([op1]) == [op1] && RemoveRequests([op1]) == [];
    var call := SetItemCall("key1", Text("value1"), NoOptions);
    assert SetDelivery([op1], MockCaps) == [call];
    var s2 := Initial.(flushing := true, phase := AwaitingSets([]), log := [call]);
    assert Step(s1, TestConfig, MockCaps, TimerFired) == s2;
    var s3 := s2.(table := [op2]);
    assert Step(s2, TestConfig, MockCaps, Set("key2", "value2", 2)) == s3;
    var s4 := s3.(disposed := true, log := [call, DisposeCall]);
    assert Step(s3, TestConfig, MockCaps, DisposeEvent) == s4;
    assert Step(s4, TestConfig, MockCaps, SetsSettled(false)) == s4.(flushing := false, phase := Idle);
  }

  /** The test backend with a `clear` of its own. */
  const ClearCaps := Capabilities(
    setItem := true, setItems := true, setItemRaw := false, removeItem := true,
    getItems := false, getItemRaw := false, clear := true, dispose := true)

  /** A write made while the timer's flush is suspended, followed by `clear`: `flushQueue`
      returns at once, so the backend's `clear` is issued before the write, which a later
      flush delivers after it. The write survives the `clear`. */
  lemma ClearDuringFlushKeepsWrite()
    ensures Run(Initial, TestConfig, ClearCaps,
      [Set("key1", "value1", 1), TimerFired, Set("key2", "value2", 2), ClearEvent("", NoOptions, []),
       SetsSettled(false), TimerFired, SetsSettled(false)])
      == Some(Initial.(log := [SetItemCall("key1", Text("value1"), NoOptions), ClearCall("", NoOptions),
                               SetItemCall("key2", Text("value2"), NoOptions)]))
  {
    var op2 := SetOpAt("key2", "value2", 2);
    var call1 := SetItemCall("key1", Text("value1"), NoOptions);
    var s2 := Initial.(flushing := true, phase := AwaitingSets([]), log := [call1]);
    var s4 := s2.(table := [op2], log := [call1, ClearCall("", NoOptions)]);
    ClearDuringFlushFirstSteps();
    ClearDuringFlushLaterSteps();
    var e6: seq<Event> := [TimerFired, SetsSettled(false)];
    var e5: seq<Event> := [SetsSettled(false)] + e6;
    var e4: seq<Event> := [ClearEvent("", NoOptions, [])] + e5;
    var e3: seq<Event> := [Set("key2", "value2", 2)] + e4;
    var e2: seq<Event> := [TimerFired] + e3;
    var e1: seq<Event> := [Set("key1", "value1", 1)] + e2;
    var s6 := Initial.(flushing := true, phase := AwaitingSets([]), log := s4.log + [SetItemCall("key2", Text("value2"), NoOptions)]);
    RunCons(s6, TestConfig, ClearCaps, [SetsSettled(false)]);
    RunCons(Initial.(table := [op2], timerArmed := true, log := s4.log), TestConfig, ClearCaps, e6);
    assert e6[1..] == [SetsSettled(false)];
    RunCons(s4, TestConfig, ClearCaps, e5);
    RunCons(s2.(table := [op2]), TestConfig, ClearCaps, e4);
    RunCons(s2, TestConfig, ClearCaps, e3);
    RunCons(Initial.(table := [SetOpAt("key1", "value1", 1)], timerArmed := true), TestConfig, ClearCaps, e2);
    RunCons(Initial, TestConfig, ClearCaps, e1);
    assert e1[1..] == e2 && e2[1..] == e3 && e3[1..] == e4 && e4[1..] == e5 && e5[1..] == e6;
    assert e1 == [Set("key1", "value1", 1), TimerFired, Set("key2", "value2", 2), ClearEvent("", NoOptions, []),
                  SetsSettled(false), TimerFired, SetsSettled(false)];
  }

  /** The first four events of `ClearDuringFlushKeepsWrite`, up to the `clear`. */
  lemma ClearDuringFlushFirstSteps()
    ensures
      var op1, op2 := SetOpAt("key1", "value1", 1), SetOpAt("key2", "value2", 2);
      var call1 := SetItemCall("key1", Text("value1"), NoOptions);
      var s1 := Initial.(table := [op1], timerArmed := true);
      var s2 := Initial.(flushing := true, phase := AwaitingSets([]), log := [call1]);
      && Step(Initial, TestConfig, ClearCaps, Set("key1", "value1", 1)) == s1
      && Step(s1, TestConfig, ClearCaps, TimerFired) == s2
      && Step(s2, TestConfig, ClearCaps, Set("key2", "value2", 2)) == s2.(table := [op2])
      && Step(s2.(table := [op2]), TestConfig, ClearCaps, ClearEvent("", NoOptions, []))
         == s2.(table := [op2], log := [call1, ClearCall("", NoOptions)])
  {
    SingleSetFlush(SetOpAt("key1", "value1", 1), ClearCaps);
  }

  /** The last three events of `ClearDuringFlushKeepsWrite`: the running flush ends and
      re-arms the timer for the write, which the next flush delivers. */
  lemma ClearDuringFlushLaterSteps()
    ensures
      var op2 := SetOpAt("key2", "value2", 2);
      var call1, call2 := SetItemCall("key1", Text("value1"), NoOptions), SetItemCall("key2", Text("value2"), NoOptions);
      var s4 := Initial.(table := [op2], flushing := true, phase := AwaitingSets([]), log := [call1, ClearCall("", NoOptions)]);
      var s5 := Initial.(table := [op2], timerArmed := true, log := s4.log);
      var s6 := Initial.(flushing := true, phase := AwaitingSets([]), log := s4.log + [call2]);
      && Step(s4, TestConfig, ClearCaps, SetsSettled(false)) == s5
      && Step(s5, TestConfig, ClearCaps, TimerFired) == s6
      && Step(s6, TestConfig, ClearCaps, SetsSettled(false)) == Initial.(log := [call1, ClearCall("", NoOptions), call2])
  {
    SingleSetFlush(SetOpAt("key2", "value2", 2), ClearCaps);
  }

  /** A snapshot of one plain set is delivered by one `setItem`. */
  lemma SingleSetFlush(op: QueuedOperation, caps: Capabilities)
    requires Deliverable(op) && !op.isRaw && caps.setItem
    ensures SortByTime([op]) == [op] && SetOps([op]) == [op] && RemoveRequests([op]) == []
    ensures SetDelivery([op], caps) == [SetItemCall(op.key, op.value, op.options)]
  {
    assert [op][1..] == [];
    assert IndividualSets([op], caps) == SetCall(op, caps) + IndividualSets([], caps);
  }

  /** Backend keys `["existing_key"]`, a pending set of `queued_key` and a pending remove of
      `existing_key`: `getKeys()` lists `queued_key` only. */
  lemma GetKeysMergesPending()
    ensures GetKeys([SetOpAt("queued_key", "value", 1), QueuedOperation(RemoveOp, "existing_key", Undefined, NoOptions, 2, false)],
                    ["existing_key"], "") == ["queued_key"]
  {
    ScenarioPendingKeys();
    var keys: seq<string> := ["existing_key", "queued_key"];
    assert ["existing_key"] + ["queued_key"] == keys;
    ScenarioDedup();
    ScenarioWithout();
  }

  lemma ScenarioPendingKeys()
    ensures var t := [SetOpAt("queued_key", "value", 1), QueuedOperation(RemoveOp, "existing_key", Undefined, NoOptions, 2, false)];
      PendingKeys(t, "", SetOp) == ["queued_key"] && PendingKeys(t, "", RemoveOp) == ["existing_key"]
  {
    var opR := QueuedOperation(RemoveOp, "existing_key", Undefined, NoOptions, 2, false);
    var t := [SetOpAt("queued_key", "value", 1), opR];
    assert StartsWith("queued_key", "") && StartsWith("existing_key", "");
    assert t[1..] == [opR] && [opR][1..] == [];
    assert PendingKeys([opR], "", SetOp) == [];
    assert PendingKeys([opR], "", RemoveOp) == ["existing_key"] + PendingKeys([], "", RemoveOp);
  }

  lemma ScenarioDedup()
    ensures Dedup(["existing_key", "queued_key"]) == ["existing_key", "queued_key"]
  {
    assert Dedup(["existing_key"]) == ["existing_key"];
    assert ["existing_key", "queued_key"][..1] == ["existing_key"];
    assert "queued_key" != "existing_key";
  }

  lemma ScenarioWithout()
    ensures Without(["existing_key", "queued_key"], ["existing_key"]) == ["queued_key"]
  {
    var keys: seq<string> := ["existing_key", "queued_key"];
    assert keys[1..] == ["queued_key"] && keys[1..][1..] == [];
    assert "queued_key" != "existing_key";
    assert Without(keys[1..], ["existing_key"]) == ["queued_key"];
  }

  /** `getItems` over one queued and two unqueued keys: the queued one from the table, the
      others as individual `getItem` reads, the backend having no `getItems`. */
  lemma GetItemsSplitsQueued()
    ensures var t := [SetOpAt("queued_key", "queued_value", 1)];
      var items := [KeyItem("queued_key"), KeyItem("existing_key"), KeyItem("missing_key")];
      && QueuedResults(t, items) == [KeyValue("queued_key", Text("queued_value"))]
      && Unqueued(t, items) == [KeyItem("existing_key"), KeyItem("missing_key")]
      && ForwardedReads(MockCaps, Unqueued(t, items), NoOptions) ==
           [GetItemRead("existing_key", NoOptions), GetItemRead("missing_key", NoOptions)]
  {
    var t := [SetOpAt("queued_key", "queued_value", 1)];
    var items := [KeyItem("queued_key"), KeyItem("existing_key"), KeyItem("missing_key")];
    assert items[..2][..1] == items[..1] && items[..1][..0] == [];
    assert Lookup(t, "queued_key").Some? && Lookup(t, "existing_key").None? && Lookup(t, "missing_key").None?;
    assert QueuedResults(t, items[..1]) == [KeyValue("queued_key", Text("queued_value"))];
    assert Unqueued(t, items[..1]) == [];
    assert items[..2][1] == KeyItem("existing_key") && items[2] == KeyItem("missing_key");
    assert Unqueued(t, items[..2]) == [KeyItem("existing_key")];
    assert QueuedResults(t, items[..2]) == QueuedResults(t, items[..1]);
  }
}
