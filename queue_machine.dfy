/** The queue driver's state and its transitions, as values: what `queueOperation`,
    `scheduleFlush`, `flushQueue`, the timer callback and the write, `clear` and `dispose`
    operations do to the pending table, the timer, the `flushing` and `disposed` flags and the
    sequence of calls issued to the backend.

    `flushQueue` is split at its suspension points: `FlushQueue` is the part that runs
    synchronously (snapshot, clear, issue the set calls), `SettleSets` is the continuation after
    the sets' `await` (issue the removes), `SettleRemoves` the one after the removes' `await`
    (the `finally` block). A caller that awaits the flush (`dispose`, `clear`) is recorded as
    the flush's waiter and continues when the flush settles. */
module QueueMachine {
  import opened Values
  import opened Backend
  import opened PendingTable
  import opened FlushDelivery

  /** The queue options after `{ ...defaultOptions, ...opts }`. */
  datatype Config = Config(batchSize: int, flushInterval: int, maxQueueSize: int, mergeUpdates: bool)

  const DefaultConfig := Config(100, 1000, 1000, true)

  /** A caller suspended in `await flushQueue()`, and what it does when the flush resolves. */
  datatype Waiter = DisposeWaiter | ClearWaiter(base: string, options: Options)

  /** Where the running flush is suspended. */
  datatype Phase =
    | Idle
    | AwaitingSets(removes: seq<RemoveRequest>)
    | AwaitingRemoves

  /** `QueueContext` plus what the model observes: `timerArmed` is `flushTimer !== undefined`,
      `log` is every call issued to the backend so far. */
  datatype QueueState = QueueState(
    table: Table,
    timerArmed: bool,
    flushing: bool,
    disposed: bool,
    phase: Phase,
    waiter: Option<Waiter>,
    log: seq<BackendCall>)

  const Initial := QueueState([], false, false, false, Idle, None, [])

  /** `scheduleFlush`: arm the timer unless one is armed, a flush is running or the driver is
      disposed. */
  function ScheduleFlush(s: QueueState): QueueState
  {
    if s.timerArmed || s.flushing || s.disposed then s else s.(timerArmed := true)
  }

  /** The rest of `dispose` or `clear` once its `await flushQueue()` has resolved (`ok`) or
      rejected (the caller stops there). */
  function Resume(s: QueueState, caps: Capabilities, w: Option<Waiter>, ok: bool): QueueState
  {
    if !ok || w.None? then s
    else match w.value
      case DisposeWaiter => s.(disposed := true, log := s.log + if caps.dispose then [DisposeCall] else [])
      case ClearWaiter(base, options) => s.(log := s.log + [ClearCall(base, options)])
  }

  /** The `finally` block of `flushQueue`, then the waiter's continuation. */
  function FinishFlush(s: QueueState, caps: Capabilities, ok: bool): QueueState
  {
    var done := s.(flushing := false, phase := Idle, waiter := None);
    var next := if |done.table| > 0 && !done.disposed then ScheduleFlush(done) else done;
    Resume(next, caps, s.waiter, ok)
  }

  /** `flushQueue()` up to its first suspension, awaited by `w` if anyone awaits it. */
  function FlushQueue(s: QueueState, caps: Capabilities, w: Option<Waiter>): QueueState
  {
    if s.flushing || |s.table| == 0 || s.disposed then Resume(s, caps, w, true)
    else
      var ops := SortByTime(s.table);
      var sets, removes := SetOps(ops), RemoveRequests(ops);
      var started := s.(table := [], flushing := true, waiter := w);
      if |sets| > 0 then started.(phase := AwaitingSets(removes), log := s.log + SetDelivery(sets, caps))
      else if |removes| > 0 then started.(phase := AwaitingRemoves, log := s.log + RemoveDelivery(removes, caps))
      else FinishFlush(started, caps, true)
  }

  /** The sets' `await` settles: on success the removes are issued (or the flush ends when
      there are none); on rejection the flush ends and the removes are never issued. */
  function SettleSets(s: QueueState, caps: Capabilities, rejected: bool): QueueState
    requires s.phase.AwaitingSets?
  {
    if rejected then FinishFlush(s, caps, false)
    else if |s.phase.removes| > 0 then s.(phase := AwaitingRemoves, log := s.log + RemoveDelivery(s.phase.removes, caps))
    else FinishFlush(s, caps, true)
  }

  /** The removes' `await` settles and the flush ends. */
  function SettleRemoves(s: QueueState, caps: Capabilities, rejected: bool): QueueState
    requires s.phase.AwaitingRemoves?
  {
    FinishFlush(s, caps, !rejected)
  }

  /** `queueOperation` */
  function Enqueue(s: QueueState, cfg: Config, caps: Capabilities, op: QueuedOperation): QueueState
  {
    if s.disposed then s
    else
      var admitted := s.(table := Admit(s.table, op, cfg.mergeUpdates));
      var scheduled :=
        if |admitted.table| >= cfg.batchSize then FlushQueue(admitted.(timerArmed := false), caps, None)
        else ScheduleFlush(admitted);
      if |scheduled.table| >= cfg.maxQueueSize then FlushQueue(scheduled, caps, None) else scheduled
  }

  /** One `queueOperation` per element, in order. */
  function EnqueueAll(s: QueueState, cfg: Config, caps: Capabilities, ops: seq<QueuedOperation>): QueueState
    decreases |ops|
  {
    if ops == [] then s else EnqueueAll(Enqueue(s, cfg, caps, ops[0]), cfg, caps, ops[1..])
  }

  /** `setItem(key, value, opts)` at time `now` */
  function SetItem(s: QueueState, cfg: Config, caps: Capabilities, key: string, value: Value, options: Options, now: int): QueueState
  {
    if !caps.setItem then s
    else Enqueue(s, cfg, caps, QueuedOperation(SetOp, key, value, options, now, false))
  }

  /** `setItemRaw(key, value, opts)` at time `now` */
  function SetItemRaw(s: QueueState, cfg: Config, caps: Capabilities, key: string, value: Value, options: Options, now: int): QueueState
  {
    if !caps.setItem && !caps.setItemRaw then s
    else Enqueue(s, cfg, caps, QueuedOperation(SetOp, key, value, options, now, true))
  }

  /** `removeItem(key, opts)` at time `now` */
  function RemoveItem(s: QueueState, cfg: Config, caps: Capabilities, key: string, options: Options, now: int): QueueState
  {
    if !caps.removeItem then s
    else Enqueue(s, cfg, caps, QueuedOperation(RemoveOp, key, Undefined, options, now, false))
  }

  /** The operations `setItems(items, commonOptions)` enqueues, each with its options merged
      over the common ones. */
  function ItemOps(items: seq<Entry>, common: Options, times: seq<int>): (ops: seq<QueuedOperation>)
    requires |times| == |items|
    ensures |ops| == |items|
    ensures forall i | 0 <= i < |items| ::
      ops[i] == QueuedOperation(SetOp, items[i].key, items[i].value, MergeOptions(common, items[i].options), times[i], false)
  {
    if items == [] then []
    else
      var op := QueuedOperation(SetOp, items[0].key, items[0].value, MergeOptions(common, items[0].options), times[0], false);
      [op] + ItemOps(items[1..], common, times[1..])
  }

  /** `setItems(items, commonOptions)`, where `Date.now()` reads `times[i]` for item `i`. */
  function SetItems(s: QueueState, cfg: Config, caps: Capabilities, items: seq<Entry>, common: Options, times: seq<int>): QueueState
    requires |times| == |items|
  {
    if !caps.setItem then s else EnqueueAll(s, cfg, caps, ItemOps(items, common, times))
  }

  /** The debounce timer's callback. */
  function TimerFires(s: QueueState, caps: Capabilities): QueueState
    requires s.timerArmed
  {
    FlushQueue(s.(timerArmed := false), caps, None)
  }

  /** `dispose()`: cancel the timer, then flush with the rest of `dispose` waiting on it. */
  function Dispose(s: QueueState, caps: Capabilities): QueueState
  {
    FlushQueue(s.(timerArmed := false), caps, Some(DisposeWaiter))
  }

  /** The fallback of `clear` for a backend without `clear`: one `removeItem` per key the
      backend lists under `base`, through `driver.removeItem?.(...)`. */
  function ClearFallback(keys: seq<string>, options: Options, caps: Capabilities): (calls: seq<BackendCall>)
    ensures caps.removeItem ==> |calls| == |keys| && forall i | 0 <= i < |keys| :: calls[i] == RemoveItemCall(keys[i], options)
    ensures !caps.removeItem ==> calls == []
  {
    if keys == [] || !caps.removeItem then []
    else [RemoveItemCall(keys[0], options)] + ClearFallback(keys[1..], options, caps)
  }

  /** `clear(base, opts)`: with a backend `clear`, flush with the clear waiting on it;
      otherwise remove what the backend lists (`backendKeys`), leaving the table alone. */
  function Clear(s: QueueState, caps: Capabilities, base: string, options: Options, backendKeys: seq<string>): QueueState
  {
    if caps.clear then FlushQueue(s, caps, Some(ClearWaiter(base, options)))
    else s.(log := s.log + ClearFallback(backendKeys, options, caps))
  }

  // ---------------------------------------------------------------------------
  // Events

  datatype Event =
    | SetItemEvent(key: string, value: Value, options: Options, now: int)
    | SetItemsEvent(items: seq<Entry>, common: Options, times: seq<int>)
    | SetItemRawEvent(key: string, value: Value, options: Options, now: int)
    | RemoveItemEvent(key: string, options: Options, now: int)
    | TimerFired
    | SetsSettled(rejected: bool)
    | RemovesSettled(rejected: bool)
    | DisposeEvent
    | ClearEvent(base: string, options: Options, backendKeys: seq<string>)

  /** The timer can only fire when armed, and a flush's awaits only settle where it is
      suspended. A `setItems` reads the clock once per item. */
  predicate Enabled(s: QueueState, e: Event)
  {
    match e
    case SetItemsEvent(items, _, times) => |times| == |items|
    case TimerFired => s.timerArmed
    case SetsSettled(_) => s.phase.AwaitingSets?
    case RemovesSettled(_) => s.phase.AwaitingRemoves?
    case _ => true
  }

  function Step(s: QueueState, cfg: Config, caps: Capabilities, e: Event): QueueState
    requires Enabled(s, e)
  {
    match e
    case SetItemEvent(key, value, options, now) => SetItem(s, cfg, caps, key, value, options, now)
    case SetItemsEvent(items, common, times) => SetItems(s, cfg, caps, items, common, times)
    case SetItemRawEvent(key, value, options, now) => SetItemRaw(s, cfg, caps, key, value, options, now)
    case RemoveItemEvent(key, options, now) => RemoveItem(s, cfg, caps, key, options, now)
    case TimerFired => TimerFires(s, caps)
    case SetsSettled(rejected) => SettleSets(s, caps, rejected)
    case RemovesSettled(rejected) => SettleRemoves(s, caps, rejected)
    case DisposeEvent => Dispose(s, caps)
    case ClearEvent(base, options, keys) => Clear(s, caps, base, options, keys)
  }

  /** The state after a sequence of events, or `None` if one of them cannot happen. */
  function Run(s: QueueState, cfg: Config, caps: Capabilities, es: seq<Event>): Option<QueueState>
    decreases |es|
  {
    if es == [] then Some(s)
    else if !Enabled(s, es[0]) then None
    else Run(Step(s, cfg, caps, es[0]), cfg, caps, es[1..])
  }

  // ---------------------------------------------------------------------------
  // Invariant

  /** The table is a Map of operations the backend can deliver. */
  predicate TableOk(s: QueueState, caps: Capabilities)
  {
    UniqueKeys(s.table) && AllAdmitted(s.table, caps)
  }

  /** The table is a Map of admitted operations; a flush is running exactly while it is
      suspended somewhere; only a running flush has a waiter. */
  predicate Core(s: QueueState, caps: Capabilities)
  {
    && TableOk(s, caps)
    && (s.flushing <==> !s.phase.Idle?)
    && (s.waiter.Some? ==> s.flushing)
  }

  /** Pending operations of a live driver are always on their way: a timer is armed or a flush
      is running (which re-arms the timer when it ends). */
  predicate NoStranded(s: QueueState)
  {
    !s.disposed && |s.table| > 0 ==> s.timerArmed || s.flushing
  }

  predicate Inv(s: QueueState, caps: Capabilities)
  {
    Core(s, caps) && NoStranded(s)
  }

  lemma InitialInv(caps: Capabilities)
    ensures Inv(Initial, caps)
  {
  }

  lemma FinishFlushInv(s: QueueState, caps: Capabilities, ok: bool)
    requires TableOk(s, caps)
    ensures Inv(FinishFlush(s, caps, ok), caps)
    ensures !FinishFlush(s, caps, ok).flushing && FinishFlush(s, caps, ok).table == s.table
  {
  }

  /** The `finally` block arms a new timer exactly when none is armed, the table is non-empty
      and the driver is not disposed. */
  lemma FinishFlushRearms(s: QueueState, caps: Capabilities, ok: bool)
    ensures FinishFlush(s, caps, ok).timerArmed == (s.timerArmed || (|s.table| > 0 && !s.disposed))
  {
  }

  lemma FlushQueueInv(s: QueueState, caps: Capabilities, w: Option<Waiter>)
    requires Core(s, caps) && (s.flushing || s.disposed || |s.table| == 0 ==> NoStranded(s))
    ensures Inv(FlushQueue(s, caps, w), caps)
  {
    if !(s.flushing || |s.table| == 0 || s.disposed) {
      var started := s.(table := [], flushing := true, waiter := w);
      FinishFlushInv(started, caps, true);
    }
  }

  lemma EnqueueInv(s: QueueState, cfg: Config, caps: Capabilities, op: QueuedOperation)
    requires Inv(s, caps) && Admitted(op, caps)
    ensures Inv(Enqueue(s, cfg, caps, op), caps)
  {
    if !s.disposed {
      AdmitUnique(s.table, op, cfg.mergeUpdates);
      AdmitAdmitted(s.table, op, cfg.mergeUpdates, caps);
      var admitted := s.(table := Admit(s.table, op, cfg.mergeUpdates));
      if |admitted.table| >= cfg.batchSize {
        FlushQueueInv(admitted.(timerArmed := false), caps, None);
      }
      var scheduled :=
        if |admitted.table| >= cfg.batchSize then FlushQueue(admitted.(timerArmed := false), caps, None)
        else ScheduleFlush(admitted);
      FlushQueueInv(scheduled, caps, None);
    }
  }

  lemma {:induction false} EnqueueAllInv(s: QueueState, cfg: Config, caps: Capabilities, ops: seq<QueuedOperation>)
    requires Inv(s, caps) && forall i | 0 <= i < |ops| :: Admitted(ops[i], caps)
    ensures Inv(EnqueueAll(s, cfg, caps, ops), caps)
    decreases |ops|
  {
    if ops != [] {
      EnqueueInv(s, cfg, caps, ops[0]);
      EnqueueAllInv(Enqueue(s, cfg, caps, ops[0]), cfg, caps, ops[1..]);
    }
  }

  /** Every event keeps the invariant. */
  lemma StepInv(s: QueueState, cfg: Config, caps: Capabilities, e: Event)
    requires Inv(s, caps) && Enabled(s, e)
    ensures Inv(Step(s, cfg, caps, e), caps)
  {
    match e
    case SetItemEvent(key, value, options, now) =>
      if caps.setItem {
        EnqueueInv(s, cfg, caps, QueuedOperation(SetOp, key, value, options, now, false));
      }
    case SetItemsEvent(items, common, times) =>
      if caps.setItem {
        EnqueueAllInv(s, cfg, caps, ItemOps(items, common, times));
      }
    case SetItemRawEvent(key, value, options, now) =>
      if caps.setItem || caps.setItemRaw {
        EnqueueInv(s, cfg, caps, QueuedOperation(SetOp, key, value, options, now, true));
      }
    case RemoveItemEvent(key, options, now) =>
      if caps.removeItem {
        EnqueueInv(s, cfg, caps, QueuedOperation(RemoveOp, key, Undefined, options, now, false));
      }
    case TimerFired =>
      FlushQueueInv(s.(timerArmed := false), caps, None);
    case SetsSettled(rejected) =>
      FinishFlushInv(s, caps, !rejected);
    case RemovesSettled(rejected) =>
      FinishFlushInv(s, caps, !rejected);
    case DisposeEvent =>
      FlushQueueInv(s.(timerArmed := false), caps, Some(DisposeWaiter));
    case ClearEvent(base, options, keys) =>
      if caps.clear {
        FlushQueueInv(s, caps, Some(ClearWaiter(base, options)));
      }
  }

  /** Every state reachable from the initial one satisfies the invariant. */
  lemma {:induction false} RunInv(s: QueueState, cfg: Config, caps: Capabilities, es: seq<Event>)
    requires Inv(s, caps) && Run(s, cfg, caps, es).Some?
    ensures Inv(Run(s, cfg, caps, es).value, caps)
    decreases |es|
  {
    if es != [] {
      StepInv(s, cfg, caps, es[0]);
      RunInv(Step(s, cfg, caps, es[0]), cfg, caps, es[1..]);
    }
  }

  // ---------------------------------------------------------------------------
  // The flush guard and flushes that do not overlap

  /** `flushQueue` leaves the state untouched exactly when a flush is running, the table is
      empty or the driver is disposed; otherwise it takes the whole table. */
  lemma FlushGuard(s: QueueState, caps: Capabilities)
    ensures FlushQueue(s, caps, None) == s <==> s.flushing || |s.table| == 0 || s.disposed
    ensures !(s.flushing || |s.table| == 0 || s.disposed) ==> FlushQueue(s, caps, None).table == []
  {
  }

  /** A set, raw set or bulk set call. */
  predicate IsSetCall(c: BackendCall)
  {
    c.SetItemCall? || c.SetItemsCall? || c.SetItemRawCall?
  }

  /** `after` is `before` followed by calls none of which is a set call. */
  predicate NoNewSetCalls(before: seq<BackendCall>, after: seq<BackendCall>)
  {
    before <= after && forall i | |before| <= i < |after| :: !IsSetCall(after[i])
  }

  lemma AppendNoSetCalls(log: seq<BackendCall>, calls: seq<BackendCall>)
    requires forall i | 0 <= i < |calls| :: !IsSetCall(calls[i])
    ensures NoNewSetCalls(log, log + calls)
  {
    forall i | |log| <= i < |log + calls| ensures !IsSetCall((log + calls)[i]) {
      assert (log + calls)[i] == calls[i - |log|];
    }
  }

  /** `clear` on a driver that cannot start a flush issues no set call and leaves the flush,
      the table and the waiter as they are. With a backend `clear`, that `clear` is issued at
      once, ahead of every operation still pending and of the running flush's removes. */
  lemma ClearStartsNoFlush(s: QueueState, caps: Capabilities, base: string, options: Options, keys: seq<string>)
    requires s.flushing || s.disposed
    ensures var r := Clear(s, caps, base, options, keys);
      && NoNewSetCalls(s.log, r.log)
      && (caps.clear ==> r.log == s.log + [ClearCall(base, options)])
      && r.table == s.table && r.phase == s.phase && r.flushing == s.flushing
      && r.waiter == s.waiter && r.disposed == s.disposed
  {
    if caps.clear {
      AppendNoSetCalls(s.log, [ClearCall(base, options)]);
    } else {
      AppendNoSetCalls(s.log, ClearFallback(keys, options, caps));
    }
  }

  /** An enqueue while a flush is running only changes the table (and drops the timer when
      the batch size is reached): the running flush is not disturbed and nothing is issued. */
  lemma EnqueueDuringFlush(s: QueueState, cfg: Config, caps: Capabilities, op: QueuedOperation)
    requires Core(s, caps) && s.flushing && !s.disposed
    ensures Enqueue(s, cfg, caps, op) ==
      var t := Admit(s.table, op, cfg.mergeUpdates);
      s.(table := t, timerArmed := s.timerArmed && |t| < cfg.batchSize)
  {
  }

  lemma {:induction false} EnqueueAllDuringFlush(s: QueueState, cfg: Config, caps: Capabilities, ops: seq<QueuedOperation>)
    requires Core(s, caps) && s.flushing && !s.disposed && forall i | 0 <= i < |ops| :: Admitted(ops[i], caps)
    ensures var r := EnqueueAll(s, cfg, caps, ops);
      r.log == s.log && r.phase == s.phase && r.flushing && r.waiter == s.waiter && !r.disposed && Core(r, caps)
    decreases |ops|
  {
    if ops != [] {
      EnqueueDuringFlush(s, cfg, caps, ops[0]);
      AdmitUnique(s.table, ops[0], cfg.mergeUpdates);
      AdmitAdmitted(s.table, ops[0], cfg.mergeUpdates, caps);
      EnqueueAllDuringFlush(Enqueue(s, cfg, caps, ops[0]), cfg, caps, ops[1..]);
    }
  }

  /** While a flush is suspended, no event other than the settling of its own awaits moves it
      on or issues another set call: a second flush cannot start. */
  lemma NoOverlappingFlush(s: QueueState, cfg: Config, caps: Capabilities, e: Event)
    requires Inv(s, caps) && s.flushing && Enabled(s, e) && !e.SetsSettled? && !e.RemovesSettled?
    ensures var r := Step(s, cfg, caps, e);
      r.flushing && r.phase == s.phase && NoNewSetCalls(s.log, r.log)
  {
    match e
    case SetItemEvent(key, value, options, now) =>
      if caps.setItem && !s.disposed {
        EnqueueDuringFlush(s, cfg, caps, QueuedOperation(SetOp, key, value, options, now, false));
      }
    case SetItemRawEvent(key, value, options, now) =>
      if (caps.setItem || caps.setItemRaw) && !s.disposed {
        EnqueueDuringFlush(s, cfg, caps, QueuedOperation(SetOp, key, value, options, now, true));
      }
    case RemoveItemEvent(key, options, now) =>
      if caps.removeItem && !s.disposed {
        EnqueueDuringFlush(s, cfg, caps, QueuedOperation(RemoveOp, key, Undefined, options, now, false));
      }
    case SetItemsEvent(items, common, times) =>
      if caps.setItem && !s.disposed {
        EnqueueAllDuringFlush(s, cfg, caps, ItemOps(items, common, times));
      } else if caps.setItem {
        DisposedEnqueueAll(s, cfg, caps, ItemOps(items, common, times));
      }
    case TimerFired =>
    case DisposeEvent =>
      if !s.disposed {
        DisposeDuringFlush(s, caps);
        AppendNoSetCalls(s.log, DisposeCalls(caps));
      }
    case ClearEvent(base, options, keys) =>
      ClearStartsNoFlush(s, caps, base, options, keys);
  }

  lemma {:induction false} DisposedEnqueueAll(s: QueueState, cfg: Config, caps: Capabilities, ops: seq<QueuedOperation>)
    requires s.disposed
    ensures EnqueueAll(s, cfg, caps, ops) == s
    decreases |ops|
  {
    if ops != [] {
      DisposedEnqueueAll(s, cfg, caps, ops[1..]);
    }
  }

  // ---------------------------------------------------------------------------
  // Scheduling after an enqueue

  /** Below both thresholds an enqueue issues nothing and leaves a timer armed, unless a
      running flush will re-arm it when it ends. */
  lemma EnqueueBelowThresholds(s: QueueState, cfg: Config, caps: Capabilities, op: QueuedOperation)
    requires Inv(s, caps) && !s.disposed
    requires |Admit(s.table, op, cfg.mergeUpdates)| < cfg.batchSize
    requires |Admit(s.table, op, cfg.mergeUpdates)| < cfg.maxQueueSize
    ensures var r := Enqueue(s, cfg, caps, op);
      && r.log == s.log && r.table == Admit(s.table, op, cfg.mergeUpdates)
      && r.flushing == s.flushing
      && (r.timerArmed <==> s.timerArmed || !s.flushing)
  {
  }

  /** The rest of the running flush when none of its backend calls fails. */
  function CompleteFlush(s: QueueState, caps: Capabilities): QueueState
  {
    match s.phase
    case Idle => s
    case AwaitingRemoves => SettleRemoves(s, caps, false)
    case AwaitingSets(_) =>
      var r := SettleSets(s, caps, false);
      if r.phase.AwaitingRemoves? then SettleRemoves(r, caps, false) else r
  }

  /** What the caller awaiting a flush issues once it has resolved. */
  function WaiterCalls(w: Option<Waiter>, caps: Capabilities): seq<BackendCall>
  {
    match w
    case None => []
    case Some(DisposeWaiter) => if caps.dispose then [DisposeCall] else []
    case Some(ClearWaiter(base, options)) => [ClearCall(base, options)]
  }

  lemma EmptyFlushCalls(caps: Capabilities)
    ensures FlushCalls([], caps) == []
  {
    assert SortByTime([]) == [];
  }

  /** A flush started on an idle, live driver issues, once its calls have succeeded, exactly
      the calls that deliver the whole pending table (sets first, then removes), followed by
      what its waiter does; the table it took is empty and no timer is armed on its account. */
  lemma FlushDeliversPending(s: QueueState, caps: Capabilities, w: Option<Waiter>)
    requires Core(s, caps) && !s.flushing && !s.disposed
    ensures var r := CompleteFlush(FlushQueue(s, caps, w), caps);
      && r.log == s.log + FlushCalls(s.table, caps) + WaiterCalls(w, caps)
      && r.table == [] && !r.flushing && r.phase.Idle? && r.waiter.None?
      && r.timerArmed == s.timerArmed
      && (r.disposed <==> w == Some(DisposeWaiter))
  {
    if |s.table| == 0 {
      EmptyFlushCalls(caps);
    } else {
      FlushOutcome(s, caps, w);
      ResumeAfterFacts(s.(log := s.log + FlushCalls(s.table, caps)), caps, w);
    }
  }

  /** The state a completed flush of `s` leaves behind: empty table, no flush running, the
      waiter's continuation done. */
  function ResumeAfter(s: QueueState, caps: Capabilities, w: Option<Waiter>): QueueState
  {
    Resume(s.(table := [], flushing := false, phase := Idle, waiter := None), caps, w, true)
  }

  lemma ResumeAfterFacts(s: QueueState, caps: Capabilities, w: Option<Waiter>)
    ensures var r := ResumeAfter(s, caps, w);
      && r.log == s.log + WaiterCalls(w, caps)
      && r.table == [] && !r.flushing && r.phase.Idle? && r.waiter.None?
      && r.timerArmed == s.timerArmed
      && (r.disposed <==> s.disposed || w == Some(DisposeWaiter))
  {
  }

  /** A flush of a non-empty table on an idle, live driver, followed to its end. */
  lemma FlushOutcome(s: QueueState, caps: Capabilities, w: Option<Waiter>)
    requires !s.flushing && !s.disposed && |s.table| > 0 && s.phase.Idle?
    ensures CompleteFlush(FlushQueue(s, caps, w), caps) == ResumeAfter(s.(log := s.log + FlushCalls(s.table, caps)), caps, w)
  {
    if |SetOps(SortByTime(s.table))| > 0 {
      FlushOutcomeWithSets(s, caps, w);
    } else {
      FlushOutcomeRemovesOnly(s, caps, w);
    }
  }

  lemma FlushOutcomeWithSets(s: QueueState, caps: Capabilities, w: Option<Waiter>)
    requires !s.flushing && !s.disposed && |s.table| > 0 && s.phase.Idle?
    requires |SetOps(SortByTime(s.table))| > 0
    ensures CompleteFlush(FlushQueue(s, caps, w), caps) == ResumeAfter(s.(log := s.log + FlushCalls(s.table, caps)), caps, w)
  {
    var ops := SortByTime(s.table);
    var sets, removes := SetOps(ops), RemoveRequests(ops);
    var a := s.(table := [], flushing := true, waiter := w, phase := AwaitingSets(removes), log := s.log + SetDelivery(sets, caps));
    assert FlushQueue(s, caps, w) == a;
    if |removes| > 0 {
      var b := a.(phase := AwaitingRemoves, log := a.log + RemoveDelivery(removes, caps));
      assert SettleSets(a, caps, false) == b;
      assert a.log + RemoveDelivery(removes, caps) == s.log + FlushCalls(s.table, caps);
    } else {
      EmptyFlushCalls(caps);
      assert a.log == s.log + FlushCalls(s.table, caps);
    }
  }

  lemma FlushOutcomeRemovesOnly(s: QueueState, caps: Capabilities, w: Option<Waiter>)
    requires !s.flushing && !s.disposed && |s.table| > 0 && s.phase.Idle?
    requires |SetOps(SortByTime(s.table))| == 0
    ensures CompleteFlush(FlushQueue(s, caps, w), caps) == ResumeAfter(s.(log := s.log + FlushCalls(s.table, caps)), caps, w)
  {
    var ops := SortByTime(s.table);
    var removes := RemoveRequests(ops);
    EmptyFlushCalls(caps);
    assert SetDelivery(SetOps(ops), caps) == [];
    if |removes| > 0 {
      var b := s.(table := [], flushing := true, waiter := w, phase := AwaitingRemoves, log := s.log + RemoveDelivery(removes, caps));
      assert FlushQueue(s, caps, w) == b;
      assert b.log == s.log + FlushCalls(s.table, caps);
    } else {
      assert s.log == s.log + FlushCalls(s.table, caps);
    }
  }

  /** With a reference backend: after the flush the backend holds, for every key, what the
      pending table said about it. */
  lemma FlushReachesStore(st: Store, s: QueueState, caps: Capabilities, key: string)
    requires Core(s, caps) && !s.flushing && !s.disposed
    ensures Get(ApplyCalls(st, CompleteFlush(FlushQueue(s, caps, None), caps).log), key) ==
      Expected(ApplyCalls(st, s.log), s.table, key)
  {
    FlushDeliversPending(s, caps, None);
    ApplyCallsAppend(st, s.log, FlushCalls(s.table, caps));
    assert s.log + FlushCalls(s.table, caps) + WaiterCalls(None, caps) == s.log + FlushCalls(s.table, caps);
    FlushDeliversTable(ApplyCalls(st, s.log), s.table, caps, key);
  }

  /** When the sets' await rejects, the flush ends without issuing the removes, and they are
      not put back: they are lost. */
  lemma RejectedSetsDropRemoves(s: QueueState, caps: Capabilities)
    requires Core(s, caps) && !s.flushing && !s.disposed
    requires |SetOps(SortByTime(s.table))| > 0
    ensures var r := SettleSets(FlushQueue(s, caps, None), caps, true);
      && r.log == s.log + SetDelivery(SetOps(SortByTime(s.table)), caps)
      && r.table == [] && !r.flushing
      && forall i | |s.log| <= i < |r.log| :: !r.log[i].RemoveItemCall?
  {
    var sets := SetOps(SortByTime(s.table));
    var r := SettleSets(FlushQueue(s, caps, None), caps, true);
    BulkExactlyWhenAllowed(sets, caps);
    forall i | |s.log| <= i < |r.log| ensures !r.log[i].RemoveItemCall? {
      assert r.log[i] in SetDelivery(sets, caps);
    }
  }

  /** Reaching `batchSize` on an idle driver cancels the timer and flushes everything pending,
      the new operation included. */
  lemma EnqueueReachingBatch(s: QueueState, cfg: Config, caps: Capabilities, op: QueuedOperation)
    requires Inv(s, caps) && !s.disposed && !s.flushing && Admitted(op, caps)
    requires |Admit(s.table, op, cfg.mergeUpdates)| >= cfg.batchSize
    ensures var r := Enqueue(s, cfg, caps, op);
      && r.table == [] && !r.timerArmed
      && CompleteFlush(r, caps).log == s.log + FlushCalls(Admit(s.table, op, cfg.mergeUpdates), caps)
  {
    var admitted := s.(table := Admit(s.table, op, cfg.mergeUpdates), timerArmed := false);
    AdmitUnique(s.table, op, cfg.mergeUpdates);
    AdmitAdmitted(s.table, op, cfg.mergeUpdates, caps);
    FlushDeliversPending(admitted, caps, None);
    assert admitted.log + FlushCalls(admitted.table, caps) + WaiterCalls(None, caps) == admitted.log + FlushCalls(admitted.table, caps);
  }

  /** Reaching `maxQueueSize` below `batchSize` on an idle driver flushes everything pending
      too, but the timer armed just before stays armed. */
  lemma EnqueueReachingMaxQueueSize(s: QueueState, cfg: Config, caps: Capabilities, op: QueuedOperation)
    requires Inv(s, caps) && !s.disposed && !s.flushing && Admitted(op, caps)
    requires |Admit(s.table, op, cfg.mergeUpdates)| < cfg.batchSize
    requires |Admit(s.table, op, cfg.mergeUpdates)| >= cfg.maxQueueSize
    ensures var r := Enqueue(s, cfg, caps, op);
      && r.table == [] && r.timerArmed
      && CompleteFlush(r, caps).log == s.log + FlushCalls(Admit(s.table, op, cfg.mergeUpdates), caps)
  {
    var admitted := s.(table := Admit(s.table, op, cfg.mergeUpdates), timerArmed := true);
    AdmitUnique(s.table, op, cfg.mergeUpdates);
    AdmitAdmitted(s.table, op, cfg.mergeUpdates, caps);
    FlushDeliversPending(admitted, caps, None);
    assert admitted.log + FlushCalls(admitted.table, caps) + WaiterCalls(None, caps) == admitted.log + FlushCalls(admitted.table, caps);
  }

  // ---------------------------------------------------------------------------
  // dispose and clear

  function DisposeCalls(caps: Capabilities): seq<BackendCall>
  {
    if caps.dispose then [DisposeCall] else []
  }

  /** `dispose` on a driver with no flush running: the timer is cancelled, the driver is not
      marked disposed while the flush is suspended, and once it has succeeded the backend has
      received the whole pending table before its own `dispose`. */
  lemma DisposeFlushesFirst(s: QueueState, caps: Capabilities)
    requires Core(s, caps) && !s.flushing && !s.disposed
    ensures Dispose(s, caps).flushing ==> !Dispose(s, caps).disposed
    ensures var r := CompleteFlush(Dispose(s, caps), caps);
      && r.disposed && r.table == [] && !r.timerArmed
      && r.log == s.log + FlushCalls(s.table, caps) + DisposeCalls(caps)
  {
    FlushDeliversPending(s.(timerArmed := false), caps, Some(DisposeWaiter));
  }

  /** When the flush `dispose` waits for fails, the driver is not disposed and the backend's
      `dispose` is not called. */
  lemma DisposeAbortsOnRejectedFlush(s: QueueState, caps: Capabilities)
    requires Core(s, caps) && !s.flushing && Dispose(s, caps).phase.AwaitingSets?
    ensures var r := SettleSets(Dispose(s, caps), caps, true);
      r.log == Dispose(s, caps).log && !r.disposed && !r.flushing
  {
  }

  /** `dispose` while a flush is already running: `flushQueue` returns at once, so the driver is
      disposed and the backend's `dispose` is called before the running flush has settled, and
      the operations enqueued since that flush began stay in the table. */
  lemma DisposeDuringFlush(s: QueueState, caps: Capabilities)
    requires Core(s, caps) && s.flushing && !s.disposed
    ensures var r := Dispose(s, caps);
      && r.disposed && r.table == s.table && r.phase == s.phase && !r.timerArmed
      && r.log == s.log + DisposeCalls(caps)
  {
  }

  /** `dispose`'s own flush settles while operations enqueued during it are pending: the
      `finally` block arms a timer for them, then `dispose` resumes and marks the driver
      disposed, so that timer's `flushQueue` returns at once and they are never delivered. */
  lemma DisposeStrandsWritesDuringItsFlush(s: QueueState, caps: Capabilities)
    requires Core(s, caps) && s.waiter == Some(DisposeWaiter) && !s.disposed && |s.table| > 0
    ensures var r := FinishFlush(s, caps, true);
      && r.disposed && r.table == s.table && r.timerArmed && !r.flushing
      && r.log == s.log + DisposeCalls(caps)
      && FlushQueue(r.(timerArmed := false), caps, None) == r.(timerArmed := false)
  {
  }

  /** After `dispose` has marked the driver disposed, its table never changes again and no
      set call is issued any more: whatever is still pending is never delivered. */
  lemma DisposedIsFinal(s: QueueState, cfg: Config, caps: Capabilities, e: Event)
    requires Core(s, caps) && s.disposed && Enabled(s, e)
    ensures var r := Step(s, cfg, caps, e);
      r.disposed && r.table == s.table && Core(r, caps) && NoNewSetCalls(s.log, r.log)
  {
    match e
    case SetItemsEvent(items, common, times) =>
      DisposedEnqueueAll(s, cfg, caps, ItemOps(items, common, times));
    case SetsSettled(rejected) =>
      if !rejected && |s.phase.removes| > 0 {
        RemovesNeverBatched(s.phase.removes, caps);
        AppendNoSetCalls(s.log, RemoveDelivery(s.phase.removes, caps));
      } else {
        DisposedFinishFlush(s, caps, !rejected);
      }
    case RemovesSettled(rejected) =>
      DisposedFinishFlush(s, caps, !rejected);
    case ClearEvent(base, options, keys) =>
      ClearStartsNoFlush(s, caps, base, options, keys);
    case TimerFired =>
    case DisposeEvent =>
      AppendNoSetCalls(s.log, []);
    case _ =>
  }

  /** The end of a flush on a disposed driver re-arms nothing and calls nothing. */
  lemma DisposedFinishFlush(s: QueueState, caps: Capabilities, ok: bool)
    requires Core(s, caps) && s.disposed
    ensures var r := FinishFlush(s, caps, ok);
      && r.disposed && r.table == s.table && Core(r, caps) && !r.flushing
      && NoNewSetCalls(s.log, r.log)
  {
    var r := FinishFlush(s, caps, ok);
    AppendNoSetCalls(s.log, r.log[|s.log|..]);
    assert r.log == s.log + r.log[|s.log|..];
  }

  /** `clear` with a backend `clear` and no flush running: the pending table is delivered
      before the backend's `clear`. */
  lemma ClearFlushesFirst(s: QueueState, caps: Capabilities, base: string, options: Options, keys: seq<string>)
    requires Core(s, caps) && !s.flushing && !s.disposed && caps.clear
    ensures CompleteFlush(Clear(s, caps, base, options, keys), caps).log ==
      s.log + FlushCalls(s.table, caps) + [ClearCall(base, options)]
  {
    FlushDeliversPending(s, caps, Some(ClearWaiter(base, options)));
  }

  /** `clear` without a backend `clear` does not flush: the pending table and the flush state
      stay as they are, and only `removeItem` calls for the listed keys are issued. */
  lemma ClearWithoutBackendClear(s: QueueState, caps: Capabilities, base: string, options: Options, keys: seq<string>)
    requires !caps.clear
    ensures var r := Clear(s, caps, base, options, keys);
      && r.table == s.table && r.flushing == s.flushing && r.timerArmed == s.timerArmed && r.phase == s.phase
      && s.log <= r.log
      && forall i | |s.log| <= i < |r.log| :: r.log[i].RemoveItemCall? && r.log[i].key in keys
  {
    var r := Clear(s, caps, base, options, keys);
    forall i | |s.log| <= i < |r.log| ensures r.log[i].RemoveItemCall? && r.log[i].key in keys {
      assert r.log[i] == ClearFallback(keys, options, caps)[i - |s.log|];
    }
  }
}
