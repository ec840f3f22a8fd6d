/** The queue driver as the object it is: the fields of its `QueueContext` (plus the timer
    flag, the running flush's suspension point and waiter, and the calls issued to the backend),
    updated in place by its operations. Each operation is proved to perform the corresponding
    transition of `QueueMachine` and to keep its invariant. */
module QueueDriver {
  import opened Values
  import opened Backend
  import opened PendingTable
  import opened QueueMachine
  import opened QueueReads

  class QueueDriver {
    const cfg: Config
    const caps: Capabilities

    var table: Table
    var timerArmed: bool
    var flushing: bool
    var disposed: bool
    var phase: Phase
    var waiter: Option<Waiter>
    var log: seq<BackendCall>

    function State(): QueueState
      reads this
    {
      QueueState(table, timerArmed, flushing, disposed, phase, waiter, log)
    }

    ghost predicate Valid()
      reads this
    {
      Inv(State(), caps)
    }

    constructor (cfg: Config, caps: Capabilities)
      ensures this.cfg == cfg && this.caps == caps
      ensures State() == Initial && Valid()
    {
      this.cfg, this.caps := cfg, caps;
      table, timerArmed, flushing, disposed := [], false, false, false;
      phase, waiter, log := Idle, None, [];
    }

    /** `scheduleFlush` */
    method ScheduleFlush()
      modifies this
      ensures State() == QueueMachine.ScheduleFlush(old(State()))
    {
      if !(timerArmed || flushing || disposed) {
        timerArmed := true;
      }
    }

    /** The continuation of the caller awaiting the flush. */
    method Resume(w: Option<Waiter>, ok: bool)
      modifies this
      ensures State() == QueueMachine.Resume(old(State()), caps, w, ok)
    {
      if ok && w.Some? {
        match w.value
        case DisposeWaiter =>
          disposed := true;
          if caps.dispose {
            log := log + [DisposeCall];
          }
        case ClearWaiter(base, options) =>
          log := log + [ClearCall(base, options)];
      }
    }

    /** The `finally` block of `flushQueue`, then the waiter's continuation. */
    method FinishFlush(ok: bool)
      modifies this
      ensures State() == QueueMachine.FinishFlush(old(State()), caps, ok)
    {
      var w := waiter;
      flushing, phase, waiter := false, Idle, None;
      if |table| > 0 && !disposed {
        ScheduleFlush();
      }
      Resume(w, ok);
    }

    /** `flushQueue`, up to its first `await`. */
    method FlushQueue(w: Option<Waiter>)
      modifies this
      ensures State() == QueueMachine.FlushQueue(old(State()), caps, w)
    {
      if flushing || |table| == 0 || disposed {
        Resume(w, true);
        return;
      }
      flushing := true;
      var ops := SortByTime(table);
      table := [];
      waiter := w;
      var sets, removes := Partition(ops);
      if |sets| > 0 {
        log := log + SetDelivery(sets, caps);
        phase := AwaitingSets(removes);
      } else if |removes| > 0 {
        log := log + RemoveDelivery(removes, caps);
        phase := AwaitingRemoves;
      } else {
        FinishFlush(true);
      }
    }

    /** The sets' `await` in `flushQueue` settles. */
    method SettleSets(rejected: bool)
      requires Valid() && phase.AwaitingSets?
      modifies this
      ensures State() == QueueMachine.SettleSets(old(State()), caps, rejected) && Valid()
    {
      StepInv(State(), cfg, caps, SetsSettled(rejected));
      var removes := phase.removes;
      if rejected {
        FinishFlush(false);
      } else if |removes| > 0 {
        log := log + RemoveDelivery(removes, caps);
        phase := AwaitingRemoves;
      } else {
        FinishFlush(true);
      }
    }

    /** The removes' `await` in `flushQueue` settles. */
    method SettleRemoves(rejected: bool)
      requires Valid() && phase.AwaitingRemoves?
      modifies this
      ensures State() == QueueMachine.SettleRemoves(old(State()), caps, rejected) && Valid()
    {
      StepInv(State(), cfg, caps, RemovesSettled(rejected));
      FinishFlush(!rejected);
    }

    /** `queueOperation` */
    method Enqueue(op: QueuedOperation)
      modifies this
      ensures State() == QueueMachine.Enqueue(old(State()), cfg, caps, op)
    {
      if disposed {
        return;
      }
      if cfg.mergeUpdates || Lookup(table, op.key).None? {
        table := Put(table, op);
      }
      if |table| >= cfg.batchSize {
        timerArmed := false;
        FlushQueue(None);
      } else {
        ScheduleFlush();
      }
      if |table| >= cfg.maxQueueSize {
        FlushQueue(None);
      }
    }

    method SetItem(key: string, value: Value, options: Options, now: int)
      requires Valid()
      modifies this
      ensures State() == QueueMachine.SetItem(old(State()), cfg, caps, key, value, options, now) && Valid()
    {
      StepInv(State(), cfg, caps, SetItemEvent(key, value, options, now));
      if caps.setItem {
        Enqueue(QueuedOperation(SetOp, key, value, options, now, false));
      }
    }

    method SetItemRaw(key: string, value: Value, options: Options, now: int)
      requires Valid()
      modifies this
      ensures State() == QueueMachine.SetItemRaw(old(State()), cfg, caps, key, value, options, now) && Valid()
    {
      StepInv(State(), cfg, caps, SetItemRawEvent(key, value, options, now));
      if caps.setItem || caps.setItemRaw {
        Enqueue(QueuedOperation(SetOp, key, value, options, now, true));
      }
    }

    method RemoveItem(key: string, options: Options, now: int)
      requires Valid()
      modifies this
      ensures State() == QueueMachine.RemoveItem(old(State()), cfg, caps, key, options, now) && Valid()
    {
      StepInv(State(), cfg, caps, RemoveItemEvent(key, options, now));
      if caps.removeItem {
        Enqueue(QueuedOperation(RemoveOp, key, Undefined, options, now, false));
      }
    }

    /** `setItems`: one `queueOperation` per item, item `i` stamped with `times[i]`. */
    method SetItems(items: seq<Entry>, common: Options, times: seq<int>)
      requires Valid() && |times| == |items|
      modifies this
      ensures State() == QueueMachine.SetItems(old(State()), cfg, caps, items, common, times) && Valid()
    {
      if !caps.setItem {
        return;
      }
      ghost var ops := ItemOps(items, common, times);
      for i := 0 to |items|
        invariant EnqueueAll(State(), cfg, caps, ops[i..]) == EnqueueAll(old(State()), cfg, caps, ops)
        invariant Valid()
      {
        var op := QueuedOperation(SetOp, items[i].key, items[i].value, MergeOptions(common, items[i].options), times[i], false);
        assert ops[i..][0] == op && ops[i..][1..] == ops[i + 1..];
        EnqueueInv(State(), cfg, caps, op);
        Enqueue(op);
      }
    }

    /** The debounce timer fires. */
    method TimerFires()
      requires Valid() && timerArmed
      modifies this
      ensures State() == QueueMachine.TimerFires(old(State()), caps) && Valid()
    {
      StepInv(State(), cfg, caps, TimerFired);
      timerArmed := false;
      FlushQueue(None);
    }

    method Dispose()
      requires Valid()
      modifies this
      ensures State() == QueueMachine.Dispose(old(State()), caps) && Valid()
    {
      StepInv(State(), cfg, caps, DisposeEvent);
      timerArmed := false;
      FlushQueue(Some(DisposeWaiter));
    }

    /** `clear(base, opts)`; `backendKeys` is what the backend's `getKeys(base, opts)` lists. */
    method Clear(base: string, options: Options, backendKeys: seq<string>)
      requires Valid()
      modifies this
      ensures State() == QueueMachine.Clear(old(State()), caps, base, options, backendKeys) && Valid()
    {
      StepInv(State(), cfg, caps, ClearEvent(base, options, backendKeys));
      if caps.clear {
        FlushQueue(Some(ClearWaiter(base, options)));
      } else {
        log := log + ClearFallback(backendKeys, options, caps);
      }
    }

    /** `getItems(items, commonOptions)`: answers the items with a pending entry from the table
        and returns the others together with the backend reads that fetch them. */
    method GetItems(items: seq<ReadItem>, common: Options) returns (results: seq<KeyValue>, pending: seq<ReadItem>, requests: seq<BackendRead>)
      ensures results == QueuedResults(table, items)
      ensures pending == Unqueued(table, items)
      ensures requests == ForwardedReads(caps, pending, common)
    {
      results, pending := [], [];
      for i := 0 to |items|
        invariant results == QueuedResults(table, items[..i])
        invariant pending == Unqueued(table, items[..i])
      {
        assert items[..i + 1][..i] == items[..i];
        var key := items[i].key;
        match Lookup(table, key)
        case Some(op) =>
          results := results + [KeyValue(key, PendingValue(op))];
        case None =>
          pending := pending + [items[i]];
      }
      assert items[..|items|] == items;
      requests := ForwardedReads(caps, pending, common);
    }
  }
}
