/**
 * The gateway's event system (core/src/internal/event_system.c): threads that report events, one
 * worker that calls the callbacks and retires when it has been idle, and the final destruction.
 */
module EventSystem {
  import opened Bytes

  datatype Event = CREATED | STARTED | MODULE_LIST_CHANGED | DESTROYED

  /** A registered callback with its user parameter, or the one that frees a module list. */
  datatype Closure = User(id: nat) | DestroyModuleList

  type Registry = map<Event, seq<Closure>>

  /** A THREAD_QUEUE_ROW: the event and its callbacks at the time it was reported; report is its number. */
  datatype Row = Row(event: Event, callbacks: seq<Closure>, report: nat)

  /** A callback called for an event, and the number of the report. */
  datatype CallRecord = CallRecord(event: Event, closure: Closure, report: nat)

  /**
   * Where a worker stands in callback_thread_main_func; started counts the callbacks of the row that
   * have been called.  Retiring has seen an empty queue; Leaving has handed over its thread handle.
   */
  datatype Worker = Fetching | Waiting | Dispatching(row: Row, started: nat) | Retiring | Leaving | Exited

  /** thread_queue, with every row ever queued, the rows dispatched and freed, and the calls made. */
  datatype Rows = Rows(queue: seq<Row>, history: seq<Row>, dispatched: seq<Row>, freed: seq<Row>,
                       calls: seq<CallRecord>)

  /** Every thread ever created, callback_thread, destroyed_thread and the joins made. */
  datatype Pool = Pool(threads: seq<Worker>, callback: Option<nat>, destroyed: Option<nat>, joined: multiset<nat>)

  /** Where a call of EventSystem_ReportEvent stands; Locked holds internal_change_lock. */
  datatype Report = Queueing(row: Row) | Ensuring(queued: bool) | Locked(queued: bool)

  /** The calls in progress, who holds the lock, and the call made by the callback that is running, if any. */
  datatype Reports = Reports(active: map<nat, Report>, lock: Option<nat>, inner: Option<nat>, next: nat)

  /** Where EventSystem_Destroy stands, with its copies of the thread handles still to be joined. */
  datatype Teardown = Running | Stopping | Joining(callback: Option<nat>, destroyed: Option<nat>) | Draining | Done

  datatype State = State(registered: Registry, errored: bool, delay: bool,
                         rows: Rows, pool: Pool, reports: Reports, teardown: Teardown)

  const INITIAL := State(map[CREATED := [], STARTED := [], MODULE_LIST_CHANGED := [], DESTROYED := []], false, true,
                         Rows([], [], [], [], []), Pool([], None, None, multiset{}), Reports(map[], None, None, 0),
                         Running)

  datatype Step =
    | Register(event: Event, id: nat, ok: bool)
    | Start(event: Event, nested: bool, ok: bool)
    | Enqueue(r: nat, ok: bool) | Acquire(r: nat) | JoinOld(r: nat) | Finish(r: nat, ok: bool)
    | Work
    | Destroy | Copy | JoinCopy | Drain

  // ----- Threads -----

  function Current(p: Pool): Worker {
    if p.threads == [] then Exited else p.threads[|p.threads| - 1]
  }

  function SetCurrent(p: Pool, w: Worker): Pool
    requires p.threads != []
  {
    p.(threads := p.threads[|p.threads| - 1 := w])
  }

  /** The worker hands its thread handle over to be joined later. */
  function Retire(p: Pool): Pool
    requires p.threads != []
  {
    SetCurrent(p, Leaving).(destroyed := p.callback, callback := None)
  }

  function Create(p: Pool): Pool {
    p.(threads := p.threads + [Fetching], callback := Some(|p.threads|))
  }

  function Join(p: Pool, t: nat): Pool {
    p.(joined := p.joined + multiset{t})
  }

  predicate HasExited(p: Pool, t: nat) {
    t < |p.threads| && p.threads[t].Exited?
  }

  // ----- Rows -----

  function Push(q: Rows, row: Row): Rows {
    q.(queue := q.queue + [row], history := q.history + [row])
  }

  /** What the worker does to the rows in one step. */
  function WorkRows(q: Rows, w: Worker): Rows {
    match w
    case Fetching | Waiting => if q.queue == [] then q else q.(queue := q.queue[1..])
    case Dispatching(row, started) =>
      if started < |row.callbacks| then
        q.(calls := q.calls + [CallRecord(row.event, row.callbacks[started], row.report)])
      else q.(dispatched := q.dispatched + [row])
    case Retiring | Leaving | Exited => q
  }

  /** Where the worker is after that step; get_from_thread_queue returns NULL on an empty queue. */
  function NextWorker(q: Rows, w: Worker, delay: bool): Worker {
    match w
    case Fetching => if q.queue != [] then Dispatching(q.queue[0], 0) else if delay then Waiting else Retiring
    case Waiting => if q.queue != [] then Dispatching(q.queue[0], 0) else Retiring
    case Dispatching(row, started) =>
      if started < |row.callbacks| then Dispatching(row, started + 1) else Fetching
    case Retiring => Leaving
    case Leaving | Exited => Exited
  }

  predicate CanWork(s: State) {
    match Current(s.pool)
    case Exited => false
    case Retiring => s.reports.lock == None
    case Dispatching(_, _) => s.reports.inner == None
    case Fetching | Waiting | Leaving => true
  }

  function WorkPool(q: Rows, p: Pool, delay: bool): Pool
    requires p.threads != []
  {
    if Current(p).Retiring? then Retire(p) else SetCurrent(p, NextWorker(q, Current(p), delay))
  }

  // ----- Reports and destruction -----

  /** The callbacks of a new row; a module list is freed by a last callback of its own. */
  function Snapshot(registered: Registry, event: Event): seq<Closure>
    requires event in registered
  {
    registered[event] + if event == MODULE_LIST_CHANGED then [DestroyModuleList] else []
  }

  /** Only callbacks still running may report once Destroy was called. */
  predicate Enabled(s: State, step: Step) {
    var active := s.reports.active;
    match step
    case Register(event, _, _) => !s.teardown.Done? && event in s.registered
    case Start(event, nested, _) =>
      && event in s.registered
      && (if nested then Current(s.pool).Dispatching? && Current(s.pool).started > 0 && s.reports.inner == None
          else s.teardown.Running?)
    case Enqueue(r, _) => r in active && active[r].Queueing?
    case Acquire(r) => r in active && active[r].Ensuring? && s.reports.lock == None
    case JoinOld(r) => r in active && active[r].Locked? && s.pool.destroyed.Some?
                       && HasExited(s.pool, s.pool.destroyed.value)
    case Finish(r, _) => r in active && active[r].Locked? && s.pool.destroyed == None
    case Work => CanWork(s)
    case Destroy => s.teardown.Running? && active == map[]
    case Copy => s.teardown.Stopping? && s.reports.lock == None
    case JoinCopy =>
      && s.teardown.Joining?
      && (s.teardown.callback.Some? ==> HasExited(s.pool, s.teardown.callback.value))
      && (s.teardown.callback == None && s.teardown.destroyed.Some? ==> HasExited(s.pool, s.teardown.destroyed.value))
    case Drain => s.teardown.Draining?
  }

  function EndReport(c: Reports, r: nat): Reports {
    c.(lock := None, active := c.active - {r}, inner := if c.inner == Some(r) then None else c.inner)
  }

  function Do(s: State, step: Step): State
    requires Enabled(s, step)
  {
    var c := s.reports;
    match step
    case Register(event, id, ok) =>
      if ok then s.(registered := s.registered[event := s.registered[event] + [User(id)]]) else s.(errored := true)
    case Start(event, nested, ok) =>
      if s.errored || s.registered[event] == [] then s
      else if !ok then s.(errored := true)
      else s.(reports := c.(active := c.active[c.next := Queueing(Row(event, Snapshot(s.registered, event), c.next))],
                            inner := if nested then Some(c.next) else c.inner, next := c.next + 1))
    case Enqueue(r, ok) =>
      s.(rows := if ok then Push(s.rows, c.active[r].row) else s.rows,
         reports := c.(active := c.active[r := Ensuring(ok)]))
    case Acquire(r) => s.(reports := c.(lock := Some(r), active := c.active[r := Locked(c.active[r].queued)]))
    case JoinOld(r) => s.(pool := Join(s.pool, s.pool.destroyed.value).(destroyed := None))
    case Finish(r, ok) =>
      // a row is left to the worker whose handle is set, even if that worker is retiring
      var create := c.active[r].queued && s.pool.callback == None;
      s.(reports := EndReport(c, r), pool := if create && ok then Create(s.pool) else s.pool,
         errored := s.errored || !c.active[r].queued || (create && !ok))
    case Work => s.(rows := WorkRows(s.rows, Current(s.pool)), pool := WorkPool(s.rows, s.pool, s.delay))
    case Destroy => s.(delay := false, teardown := Stopping)
    case Copy => s.(teardown := Joining(s.pool.callback, s.pool.destroyed))
    case JoinCopy =>
      var (cb, d) := (s.teardown.callback, s.teardown.destroyed);
      if cb.Some? then s.(pool := Join(s.pool, cb.value), teardown := Joining(None, d))
      else if d.Some? then s.(pool := Join(s.pool, d.value), teardown := Joining(None, None))
      else s.(teardown := Draining)
    case Drain =>
      if s.rows.queue == [] then s.(teardown := Done)
      else s.(rows := s.rows.(freed := s.rows.freed + [s.rows.queue[0]], queue := s.rows.queue[1..]))
  }

  // ----- Every row is dispatched or freed, in order -----

  function InDispatch(w: Worker): seq<Row> {
    if w.Dispatching? then [w.row] else []
  }

  /** The first n callbacks of a row, in order. */
  function CallsOfRow(row: Row, n: nat): (c: seq<CallRecord>)
    requires n <= |row.callbacks|
    ensures |c| == n && forall i :: 0 <= i < n ==> c[i] == CallRecord(row.event, row.callbacks[i], row.report)
  {
    if n == 0 then [] else CallsOfRow(row, n - 1) + [CallRecord(row.event, row.callbacks[n - 1], row.report)]
  }

  /** Every callback of every row, row after row. */
  function CallsOf(rows: seq<Row>): seq<CallRecord> {
    if rows == [] then []
    else CallsOf(rows[..|rows| - 1]) + CallsOfRow(rows[|rows| - 1], |rows[|rows| - 1].callbacks|)
  }

  predicate Fifo(q: Rows, w: Worker) {
    && q.history == q.dispatched + InDispatch(w) + q.freed + q.queue
    && (w.Dispatching? ==> w.started <= |w.row.callbacks|)
    && q.calls == CallsOf(q.dispatched) + if w.Dispatching? then CallsOfRow(w.row, w.started) else []
  }

  /** Rows are freed only when no worker is left. */
  predicate FreedOk(q: Rows, w: Worker, d: Teardown) {
    && (q.freed != [] ==> d.Draining? || d.Done?)
    && (d.Draining? || d.Done? ==> w.Exited?)
    && (d.Done? ==> q.queue == [])
  }

  /** A row carries the callbacks of its own event that were registered when it was reported. */
  predicate RowOk(registered: Registry, row: Row) {
    && row.event in registered
    && var user := if row.event == MODULE_LIST_CHANGED && row.callbacks != [] then row.callbacks[..|row.callbacks| - 1]
                   else row.callbacks;
       user != [] && user <= registered[row.event] && row.callbacks == user + row.callbacks[|user|..]
       && (row.event == MODULE_LIST_CHANGED ==> row.callbacks[|user|..] == [DestroyModuleList])
  }

  predicate RowsOk(registered: Registry, q: Rows, c: Reports) {
    && (forall row :: row in q.history ==> RowOk(registered, row))
    && (forall r :: r in c.active && c.active[r].Queueing? ==> RowOk(registered, c.active[r].row))
  }

  // ----- Every thread is joined once -----

  predicate Serving(w: Worker) {
    w.Fetching? || w.Waiting? || w.Dispatching? || w.Retiring?
  }

  predicate HandlesOk(p: Pool) {
    && (p.callback.Some? ==> p.destroyed == None && p.callback.value == |p.threads| - 1 && Serving(Current(p)))
    && (p.destroyed.Some? ==> p.destroyed.value == |p.threads| - 1 && (Current(p).Leaving? || Current(p).Exited?))
    && (p.callback == None && p.destroyed == None ==> Current(p).Exited?)
  }

  /** The newest thread has not been joined; its handle is in the system or in Destroy's copy. */
  predicate Owed(p: Pool, d: Teardown) {
    match d
    case Running | Stopping => p.callback.Some? || p.destroyed.Some?
    case Joining(c, e) => c.Some? || e.Some?
    case Draining | Done => false
  }

  predicate JoinedOk(p: Pool, t: nat, owed: bool) {
    p.joined[t] == if t + 1 < |p.threads| || (t + 1 == |p.threads| && !owed) then 1 else 0
  }

  predicate CopyOk(p: Pool, d: Teardown) {
    match d
    case Running | Stopping => true
    case Joining(c, e) =>
      if c.Some? then e == None && c.value == |p.threads| - 1 && (p.callback == c || p.destroyed == c)
      else if e.Some? then p.destroyed == e
      else Current(p).Exited?
    case Draining | Done => Current(p).Exited?
  }

  ghost predicate ThreadsOk(p: Pool, d: Teardown) {
    && HandlesOk(p) && CopyOk(p, d)
    && (forall t :: 0 <= t < |p.threads| - 1 ==> p.threads[t].Exited?)
    && (forall t: nat :: JoinedOk(p, t, Owed(p, d)))
  }

  predicate ReportsOk(c: Reports, w: Worker, d: Teardown) {
    && (forall r :: r in c.active ==> r < c.next)
    && (forall r :: r in c.active && c.active[r].Locked? ==> c.lock == Some(r))
    && (c.lock.Some? ==> c.lock.value in c.active && c.active[c.lock.value].Locked?)
    && (c.inner.Some? ==> c.inner.value in c.active && w.Dispatching?)
    && (forall r :: r in c.active && !d.Running? ==> c.inner == Some(r))
  }

  ghost predicate Inv(s: State) {
    && Fifo(s.rows, Current(s.pool)) && FreedOk(s.rows, Current(s.pool), s.teardown)
    && RowsOk(s.registered, s.rows, s.reports)
    && ThreadsOk(s.pool, s.teardown)
    && ReportsOk(s.reports, Current(s.pool), s.teardown)
  }

  // ----- Steps of the worker -----

  lemma FetchFifo(q: Rows, w: Worker)
    requires Fifo(q, w) && !w.Dispatching? && q.freed == [] && q.queue != []
    ensures Fifo(q.(queue := q.queue[1..]), Dispatching(q.queue[0], 0))
  {
    hide CallsOf;
    QueueSplit(q.dispatched, q.queue);
    assert CallsOf(q.dispatched) + CallsOfRow(q.queue[0], 0) == CallsOf(q.dispatched);
  }

  lemma QueueSplit(before: seq<Row>, queue: seq<Row>)
    requires queue != []
    ensures before + [] + [] + queue == before + [queue[0]] + [] + queue[1..]
  {
  }

  lemma CallFifo(q: Rows, row: Row, n: nat)
    requires Fifo(q, Dispatching(row, n)) && n < |row.callbacks|
    ensures Fifo(q.(calls := q.calls + [CallRecord(row.event, row.callbacks[n], row.report)]), Dispatching(row, n + 1))
  {
    hide CallsOf;
  }

  lemma RowDoneFifo(q: Rows, row: Row, w: Worker)
    requires Fifo(q, Dispatching(row, |row.callbacks|)) && q.freed == [] && !w.Dispatching?
    ensures Fifo(q.(dispatched := q.dispatched + [row]), w)
  {
    assert (q.dispatched + [row])[..|q.dispatched|] == q.dispatched;
    hide CallsOfRow;
  }

  lemma WorkFifo(q: Rows, w: Worker, delay: bool)
    requires Fifo(q, w) && (q.freed != [] ==> w.Exited?)
    ensures Fifo(WorkRows(q, w), NextWorker(q, w, delay))
  {
    match w
    case Dispatching(row, n) =>
      if n < |row.callbacks| { CallFifo(q, row, n); } else { RowDoneFifo(q, row, Fetching); }
    case _ => if q.queue != [] && (w.Fetching? || w.Waiting?) { FetchFifo(q, w); }
    hide CallsOf, CallsOfRow;
  }

  lemma WorkThreads(q: Rows, p: Pool, delay: bool, d: Teardown)
    requires ThreadsOk(p, d) && p.threads != []
    ensures ThreadsOk(WorkPool(q, p, delay), d) && Current(WorkPool(q, p, delay)) == NextWorker(q, Current(p), delay)
  {
    var r := WorkPool(q, p, delay);
    assert r.joined == p.joined && |r.threads| == |p.threads|;
    assert forall t: nat :: JoinedOk(p, t, Owed(p, d)) ==> JoinedOk(r, t, Owed(r, d));
  }

  lemma WorkRest(s: State)
    requires CanWork(s) && FreedOk(s.rows, Current(s.pool), s.teardown)
    requires RowsOk(s.registered, s.rows, s.reports) && ReportsOk(s.reports, Current(s.pool), s.teardown)
    ensures var (q, w) := (WorkRows(s.rows, Current(s.pool)), NextWorker(s.rows, Current(s.pool), s.delay));
            FreedOk(q, w, s.teardown) && RowsOk(s.registered, q, s.reports) && ReportsOk(s.reports, w, s.teardown)
  {
    hide RowOk;
  }

  lemma WorkStep(s: State)
    requires Inv(s) && CanWork(s)
    ensures Inv(Do(s, Work))
  {
    WorkRest(s);
    WorkFifo(s.rows, Current(s.pool), s.delay);
    WorkThreads(s.rows, s.pool, s.delay, s.teardown);
    hide Fifo, ThreadsOk, FreedOk, ReportsOk, RowsOk, WorkRows, NextWorker, WorkPool;
  }

  // ----- Steps of a report -----

  lemma SnapshotOk(registered: Registry, event: Event, report: nat)
    requires event in registered && registered[event] != []
    ensures RowOk(registered, Row(event, Snapshot(registered, event), report))
  {
    var row := Row(event, Snapshot(registered, event), report);
    assert event == MODULE_LIST_CHANGED ==> row.callbacks[..|row.callbacks| - 1] == registered[event];
  }

  lemma RegisterStep(s: State, step: Step)
    requires Inv(s) && step.Register? && Enabled(s, step)
    ensures Inv(Do(s, step))
  {
    var r := Do(s, step).registered;
    forall row | RowOk(s.registered, row) ensures RowOk(r, row) {}
    hide RowOk, Fifo, FreedOk, ThreadsOk, ReportsOk;
  }

  lemma StartStep(s: State, step: Step)
    requires Inv(s) && step.Start? && Enabled(s, step)
    ensures Inv(Do(s, step))
  {
    if s.registered[step.event] != [] {
      SnapshotOk(s.registered, step.event, s.reports.next);
    }
    hide RowOk, Fifo, FreedOk, ThreadsOk;
  }

  lemma PushFifo(q: Rows, w: Worker, row: Row)
    requires Fifo(q, w)
    ensures Fifo(Push(q, row), w)
  {
  }

  lemma EnqueueStep(s: State, step: Step)
    requires Inv(s) && step.Enqueue? && Enabled(s, step)
    ensures Inv(Do(s, step))
  {
    PushFifo(s.rows, Current(s.pool), s.reports.active[step.r].row);
    hide RowOk, Fifo, ThreadsOk;
  }

  lemma LockStep(s: State, step: Step)
    requires Inv(s) && (step.Acquire? || step.JoinOld?) && Enabled(s, step)
    ensures Inv(Do(s, step))
  {
    if step.JoinOld? {
      assert s.teardown.Running?;
      var (p, r) := (s.pool, Do(s, step).pool);
      forall t: nat ensures JoinedOk(r, t, false) {
        assert JoinedOk(p, t, Owed(p, s.teardown));
      }
    }
    hide RowOk, Fifo, JoinedOk;
  }

  lemma CreateThreads(p: Pool)
    requires ThreadsOk(p, Running) && p.callback == None && p.destroyed == None
    ensures ThreadsOk(Create(p), Running)
  {
    forall t: nat ensures JoinedOk(Create(p), t, true) {
      assert JoinedOk(p, t, Owed(p, Running));
    }
  }

  lemma FinishStep(s: State, step: Step)
    requires Inv(s) && step.Finish? && Enabled(s, step)
    ensures Inv(Do(s, step))
  {
    assert s.pool.callback == None ==> s.teardown.Running? && Current(s.pool).Exited?;
    if s.pool.callback == None {
      CreateThreads(s.pool);
    }
    hide RowOk, ThreadsOk, CallsOf;
  }

  // ----- Steps of Destroy -----

  lemma CopyThreads(p: Pool)
    requires ThreadsOk(p, Stopping)
    ensures ThreadsOk(p, Joining(p.callback, p.destroyed))
  {
    assert Owed(p, Joining(p.callback, p.destroyed)) == Owed(p, Stopping);
    forall t: nat ensures JoinedOk(p, t, Owed(p, Stopping)) {}
  }

  lemma DestroyStep(s: State, step: Step)
    requires Inv(s) && (step.Destroy? || step.Copy?) && Enabled(s, step)
    ensures Inv(Do(s, step))
  {
    if step.Copy? {
      CopyThreads(s.pool);
    } else {
      forall t: nat ensures JoinedOk(s.pool, t, Owed(s.pool, Stopping)) {
        assert JoinedOk(s.pool, t, Owed(s.pool, Running));
      }
    }
    hide RowOk, Fifo, JoinedOk;
  }

  /** Both copies name the newest thread at most, which nobody else can join any more. */
  lemma JoinCopyThreads(p: Pool, c: Option<nat>, e: Option<nat>)
    requires ThreadsOk(p, Joining(c, e))
    requires (c.Some? ==> HasExited(p, c.value)) && (c == None && e.Some? ==> HasExited(p, e.value))
    ensures c.Some? ==> ThreadsOk(Join(p, c.value), Joining(None, e))
    ensures c == None && e.Some? ==> ThreadsOk(Join(p, e.value), Joining(None, None))
    ensures c == None && e == None ==> ThreadsOk(p, Draining) && Current(p).Exited?
  {
    var r := if c.Some? then Join(p, c.value) else if e.Some? then Join(p, e.value) else p;
    forall t: nat ensures JoinedOk(r, t, false) {
      assert JoinedOk(p, t, Owed(p, Joining(c, e)));
    }
  }

  lemma JoinCopyRest(q: Rows, c: Reports, w: Worker, d: Teardown, e: Teardown)
    requires d.Joining? && (e.Joining? || (e.Draining? && w.Exited?)) && FreedOk(q, w, d) && ReportsOk(c, w, d)
    ensures FreedOk(q, w, e) && ReportsOk(c, w, e)
  {
  }

  lemma JoinCopyStep(s: State)
    requires Inv(s) && Enabled(s, JoinCopy)
    ensures Inv(Do(s, JoinCopy))
  {
    var r := Do(s, JoinCopy);
    JoinCopyThreads(s.pool, s.teardown.callback, s.teardown.destroyed);
    hide RowOk, Fifo, ThreadsOk, FreedOk, ReportsOk, RowsOk;
    assert Current(r.pool) == Current(s.pool);
    JoinCopyRest(s.rows, s.reports, Current(s.pool), s.teardown, r.teardown);
  }

  lemma DrainFifo(q: Rows, w: Worker)
    requires Fifo(q, w) && q.queue != []
    ensures Fifo(q.(freed := q.freed + [q.queue[0]], queue := q.queue[1..]), w)
  {
    assert q.queue == [q.queue[0]] + q.queue[1..];
  }

  lemma DrainStep(s: State)
    requires Inv(s) && Enabled(s, Drain)
    ensures Inv(Do(s, Drain))
  {
    if s.rows.queue != [] {
      DrainFifo(s.rows, Current(s.pool));
    }
    forall t: nat ensures JoinedOk(s.pool, t, Owed(s.pool, Done)) {
      assert JoinedOk(s.pool, t, Owed(s.pool, Draining));
    }
    hide RowOk, JoinedOk, Fifo;
  }

  // ----- Every run -----

  lemma StepKeeps(s: State, step: Step)
    requires Inv(s) && Enabled(s, step)
    ensures Inv(Do(s, step))
  {
    hide Inv;
    match step
    case Register(_, _, _) => RegisterStep(s, step);
    case Start(_, _, _) => StartStep(s, step);
    case Enqueue(_, _) => EnqueueStep(s, step);
    case Acquire(_) | JoinOld(_) => LockStep(s, step);
    case Finish(_, _) => FinishStep(s, step);
    case Work => WorkStep(s);
    case Destroy | Copy => DestroyStep(s, step);
    case JoinCopy => JoinCopyStep(s);
    case Drain => DrainStep(s);
  }

  predicate CanRun(s: State, steps: seq<Step>)
    decreases |steps|
  {
    steps == [] || (Enabled(s, steps[0]) && CanRun(Do(s, steps[0]), steps[1..]))
  }

  function Run(s: State, steps: seq<Step>): State
    requires CanRun(s, steps)
    decreases |steps|
  {
    if steps == [] then s else Run(Do(s, steps[0]), steps[1..])
  }

  lemma {:induction false} RunKeeps(s: State, steps: seq<Step>)
    requires Inv(s) && CanRun(s, steps)
    ensures Inv(Run(s, steps))
    decreases |steps|
  {
    if steps != [] {
      StepKeeps(s, steps[0]);
      RunKeeps(Do(s, steps[0]), steps[1..]);
    }
  }

  lemma InitialOk()
    ensures Inv(INITIAL)
  {
    forall t: nat ensures JoinedOk(INITIAL.pool, t, Owed(INITIAL.pool, Running)) {}
  }

  lemma ReachedOk(steps: seq<Step>)
    requires CanRun(INITIAL, steps)
    ensures Inv(Run(INITIAL, steps))
  {
    InitialOk();
    RunKeeps(INITIAL, steps);
  }

  // ----- What the invariant means for a run -----

  /**
   * Rows are dispatched in the order they were queued, and the calls made are all the callbacks of
   * each dispatched row, in order and once, followed by those already made for the current row.
   */
  lemma DispatchIsFifo(steps: seq<Step>)
    requires CanRun(INITIAL, steps)
    ensures var (q, w) := (Run(INITIAL, steps).rows, Current(Run(INITIAL, steps).pool));
            && q.dispatched + InDispatch(w) <= q.history
            && q.history == q.dispatched + InDispatch(w) + q.freed + q.queue
            && (w.Dispatching? ==> w.started <= |w.row.callbacks|)
            && q.calls == CallsOf(q.dispatched) + if w.Dispatching? then CallsOfRow(w.row, w.started) else []
  {
    ReachedOk(steps);
    hide Run, CanRun, FreedOk, RowsOk, ThreadsOk, ReportsOk;
  }

  lemma {:induction false} CallsComeFromRows(rows: seq<Row>, c: CallRecord)
    requires c in CallsOf(rows)
    ensures exists row :: row in rows && row.event == c.event && c.closure in row.callbacks
  {
    var (front, last) := (rows[..|rows| - 1], rows[|rows| - 1]);
    if c in CallsOf(front) {
      CallsComeFromRows(front, c);
    } else {
      assert last in rows;
    }
  }

  /** Every callback called was registered for the event it was called for, or frees a module list. */
  lemma CallsAreRegistered(steps: seq<Step>, c: CallRecord)
    requires CanRun(INITIAL, steps) && c in Run(INITIAL, steps).rows.calls
    ensures var s := Run(INITIAL, steps);
            && c.event in s.registered
            && (c.closure in s.registered[c.event]
                || (c.event == MODULE_LIST_CHANGED && c.closure == DestroyModuleList))
  {
    var s := Run(INITIAL, steps);
    var (q, w) := (s.rows, Current(s.pool));
    ReachedOk(steps);
    hide Run, CanRun, FreedOk, ThreadsOk, ReportsOk;
    var row: Row;
    if c in CallsOf(q.dispatched) {
      CallsComeFromRows(q.dispatched, c);
      row :| row in q.dispatched && row.event == c.event && c.closure in row.callbacks;
    } else {
      row := w.row;
    }
    assert row in q.history && RowOk(s.registered, row);
    hide CallsOf, CallsOfRow, Fifo, RowsOk;
    ClosureOfRow(s.registered, row, c.closure);
  }

  lemma ClosureOfRow(registered: Registry, row: Row, c: Closure)
    requires RowOk(registered, row) && c in row.callbacks
    ensures c in registered[row.event] || (row.event == MODULE_LIST_CHANGED && c == DestroyModuleList)
  {
  }

  /** The handles of a running and of a finished thread are never both kept, and one worker runs at most. */
  lemma OneWorkerAtMost(steps: seq<Step>)
    requires CanRun(INITIAL, steps)
    ensures var p := Run(INITIAL, steps).pool;
            && !(p.callback.Some? && p.destroyed.Some?)
            && (forall t :: 0 <= t < |p.threads| && !p.threads[t].Exited? ==> t == |p.threads| - 1)
            && (forall t: nat :: p.joined[t] <= 1 && (p.joined[t] == 1 ==> t < |p.threads|))
  {
    ReachedOk(steps);
    var s := Run(INITIAL, steps);
    forall t: nat ensures s.pool.joined[t] <= 1 && (s.pool.joined[t] == 1 ==> t < |s.pool.threads|) {
      assert JoinedOk(s.pool, t, Owed(s.pool, s.teardown));
    }
    hide Run, CanRun, Fifo, FreedOk, RowsOk, ReportsOk;
  }

  /**
   * When EventSystem_Destroy returns every thread ever created has ended and was joined once, and
   * every row ever queued was either dispatched completely or freed, once and in order.
   */
  lemma DestroyLeavesNothing(steps: seq<Step>)
    requires CanRun(INITIAL, steps) && Run(INITIAL, steps).teardown.Done?
    ensures var s := Run(INITIAL, steps);
            && (forall t :: 0 <= t < |s.pool.threads| ==> s.pool.threads[t].Exited?)
            && (forall t: nat :: s.pool.joined[t] == if t < |s.pool.threads| then 1 else 0)
            && s.rows.history == s.rows.dispatched + s.rows.freed
            && s.rows.calls == CallsOf(s.rows.dispatched)
            && s.reports.active == map[] && s.reports.lock == None
  {
    ReachedOk(steps);
    var s := Run(INITIAL, steps);
    forall t: nat ensures s.pool.joined[t] == if t < |s.pool.threads| then 1 else 0 {
      assert JoinedOk(s.pool, t, Owed(s.pool, Done));
    }
    hide Run, CanRun, RowsOk;
  }

  // ----- Rows nobody serves -----

  /** The worker will look at the queue again. */
  predicate WillFetch(w: Worker) {
    w.Fetching? || w.Waiting? || w.Dispatching?
  }

  function Effort(rows: seq<Row>): nat {
    if rows == [] then 0 else |rows[0].callbacks| + 3 + Effort(rows[1..])
  }

  /** A bound on the steps the worker has left if nothing more is reported. */
  function StepsLeft(q: Rows, w: Worker): nat {
    match w
    case Exited => 0
    case Leaving => 1
    case Retiring => 2
    case Waiting => 3 + Effort(q.queue)
    case Fetching => 4 + Effort(q.queue)
    case Dispatching(row, started) =>
      5 + Effort(q.queue) + if started <= |row.callbacks| then |row.callbacks| - started else 0
  }

  predicate OnlyWork(steps: seq<Step>) {
    forall i :: 0 <= i < |steps| ==> steps[i].Work?
  }

  /** Left alone the worker empties the queue, unless it is already retiring or gone. */
  lemma {:induction false} WorkerEnds(s: State) returns (steps: seq<Step>)
    requires Inv(s) && s.reports.inner == None && s.reports.lock == None
    ensures OnlyWork(steps) && CanRun(s, steps)
    ensures var r := Run(s, steps);
            && Inv(r) && Current(r.pool).Exited? && r.reports == s.reports && r.teardown == s.teardown
            && r.rows.history == s.rows.history && r.rows.freed == s.rows.freed
            && r.rows.queue == if WillFetch(Current(s.pool)) then [] else s.rows.queue
    decreases StepsLeft(s.rows, Current(s.pool))
  {
    if Current(s.pool).Exited? {
      return [];
    }
    StepKeeps(s, Work);
    WorkEffect(s);
    hide Inv, CanWork, StepsLeft, Do, Current;
    var rest := WorkerEnds(Do(s, Work));
    hide WillFetch, OnlyWork;
    CanRunCons(s, Work, rest);
    OnlyWorkCons(rest);
    steps := [Work] + rest;
  }

  lemma OnlyWorkCons(rest: seq<Step>)
    requires OnlyWork(rest)
    ensures OnlyWork([Work] + rest)
  {
  }

  lemma CanRunCons(s: State, step: Step, rest: seq<Step>)
    requires Enabled(s, step) && CanRun(Do(s, step), rest)
    ensures CanRun(s, [step] + rest) && Run(s, [step] + rest) == Run(Do(s, step), rest)
  {
    assert ([step] + rest)[1..] == rest;
    hide Do, Enabled;
  }

  lemma WorkEffect(s: State)
    requires Inv(s) && s.reports.inner == None && s.reports.lock == None && !Current(s.pool).Exited?
    ensures CanWork(s)
    ensures var (r, w) := (Do(s, Work), Current(s.pool));
            && StepsLeft(r.rows, Current(r.pool)) < StepsLeft(s.rows, w)
            && r.reports == s.reports && r.teardown == s.teardown
            && r.rows.history == s.rows.history && r.rows.freed == s.rows.freed
            && (WillFetch(w) ==> WillFetch(Current(r.pool)) || r.rows.queue == [])
            && (!WillFetch(w) ==> !WillFetch(Current(r.pool)) && r.rows.queue == s.rows.queue)
  {
    hide RowsOk, ThreadsOk, FreedOk, CallsOf, CallsOfRow;
  }

  lemma {:induction false} WorkOnlyKeepsQueue(s: State, steps: seq<Step>)
    requires Inv(s) && s.reports.inner == None && s.reports.lock == None
    requires OnlyWork(steps) && CanRun(s, steps) && !WillFetch(Current(s.pool))
    ensures Run(s, steps).rows.queue == s.rows.queue
    decreases |steps|
  {
    if steps != [] {
      assert steps[0] == Work;
      StepKeeps(s, Work);
      WorkEffect(s);
      hide Inv, WillFetch;
      WorkOnlyKeepsQueue(Do(s, Work), steps[1..]);
    }
  }

  /**
   * With no report in progress the rows waiting are dispatched without further reports exactly when
   * the worker will look at the queue again: not after its last look, when it is about to retire.
   */
  lemma ServedIff(s: State)
    requires Inv(s) && s.reports.active == map[] && s.rows.queue != []
    ensures (exists steps :: OnlyWork(steps) && CanRun(s, steps) && Run(s, steps).rows.queue == [])
       <==> WillFetch(Current(s.pool))
  {
    assert s.reports.inner == None && s.reports.lock == None by { hide Fifo, FreedOk, RowsOk, ThreadsOk; }
    hide Inv, WillFetch;
    if WillFetch(Current(s.pool)) {
      var steps := WorkerEnds(s);
    } else {
      forall steps | OnlyWork(steps) && CanRun(s, steps) ensures Run(s, steps).rows.queue != [] {
        WorkOnlyKeepsQueue(s, steps);
      }
    }
  }

  /** A report that queued its row leaves a worker unless it cannot make one; it misses the row only if retiring. */
  lemma ReportLeavesWorker(s: State, r: nat, ok: bool)
    requires Inv(s) && Enabled(s, Finish(r, ok)) && s.reports.active[r].queued
    ensures var t := Do(s, Finish(r, ok));
            && (t.pool.callback.Some? <==> s.pool.callback.Some? || ok)
            && (t.pool.callback.Some? ==> (WillFetch(Current(t.pool)) <==> !Current(t.pool).Retiring?))
  {
    hide Fifo, FreedOk, RowsOk, JoinedOk;
  }

  // ----- A row is left behind -----

  ghost predicate LeadsTo(s: State, r: State) {
    exists steps :: CanRun(s, steps) && Run(s, steps) == r
  }

  ghost predicate Reachable(s: State) {
    LeadsTo(INITIAL, s)
  }

  lemma LeadsNowhere(s: State)
    ensures LeadsTo(s, s)
  {
    assert CanRun(s, []) && Run(s, []) == s;
  }

  lemma {:induction false} RunAppend(s: State, xs: seq<Step>, ys: seq<Step>)
    requires CanRun(s, xs) && CanRun(Run(s, xs), ys)
    ensures CanRun(s, xs + ys) && Run(s, xs + ys) == Run(Run(s, xs), ys)
    decreases |xs|
  {
    hide Do, Enabled;
    if xs == [] {
      assert xs + ys == ys;
    } else {
      RunAppend(Do(s, xs[0]), xs[1..], ys);
      assert (xs + ys)[1..] == xs[1..] + ys;
    }
  }

  lemma LeadNext(from: State, s: State, step: Step, r: State)
    requires LeadsTo(from, s) && Enabled(s, step)
    requires var d := Do(s, step);
             && d.registered == r.registered && d.errored == r.errored && d.delay == r.delay && d.rows == r.rows
             && d.pool == r.pool && d.reports == r.reports && d.teardown == r.teardown
    ensures LeadsTo(from, r)
  {
    var steps :| CanRun(from, steps) && Run(from, steps) == s;
    assert Do(s, step) == r by { hide Do, Enabled; }
    assert CanRun(Do(s, step), []);
    assert [step][1..] == [];
    assert CanRun(s, [step]) && Run(s, [step]) == Do(s, step);
    RunAppend(from, steps, [step]);
    hide Do, Enabled;
  }

  lemma ReachNext(s: State, step: Step, r: State)
    requires Reachable(s) && Enabled(s, step)
    requires var d := Do(s, step);
             && d.registered == r.registered && d.errored == r.errored && d.delay == r.delay && d.rows == r.rows
             && d.pool == r.pool && d.reports == r.reports && d.teardown == r.teardown
    ensures Reachable(r)
  {
    LeadNext(INITIAL, s, step, r);
    hide Do, Enabled, LeadsTo;
  }

  const ONE_CALLBACK: Registry := INITIAL.registered[STARTED := [User(0)]]
  const THE_ROW := Row(STARTED, [User(0)], 0)
  const NEXT_ROW := Row(STARTED, [User(0)], 1)

  /** One callback is registered for STARTED and n reports of it were made. */
  function Reported(rows: Rows, pool: Pool, active: map<nat, Report>, lock: Option<nat>, n: nat): State {
    State(ONE_CALLBACK, false, true, rows, pool, Reports(active, lock, None, n), Running)
  }

  const SERVED := [CallRecord(STARTED, User(0), 0)]

  const NO_ROWS := Rows([], [], [], [], [])
  const NO_THREADS := Pool([], None, None, multiset{})

  lemma FirstQueueingReachable()
    ensures Reachable(Reported(NO_ROWS, NO_THREADS, map[0 := Queueing(THE_ROW)], None, 1))
  {
    LeadsNowhere(INITIAL);
    assert Reachable(INITIAL);
    hide Reachable;
    var a := Reported(NO_ROWS, NO_THREADS, map[], None, 0);
    assert INITIAL.registered[STARTED] + [User(0)] == [User(0)];
    ReachNext(INITIAL, Register(STARTED, 0, true), a);
    assert Snapshot(ONE_CALLBACK, STARTED) == [User(0)];
    ReachNext(a, Start(STARTED, false, true), Reported(NO_ROWS, NO_THREADS, map[0 := Queueing(THE_ROW)], None, 1));
  }

  lemma FirstReportReachable()
    ensures Reachable(Reported(Rows([THE_ROW], [THE_ROW], [], [], []), Pool([Fetching], Some(0), None, multiset{}),
                               map[], None, 1))
  {
    FirstQueueingReachable();
    hide Reachable;
    var b := Reported(NO_ROWS, NO_THREADS, map[0 := Queueing(THE_ROW)], None, 1);
    var q := Rows([THE_ROW], [THE_ROW], [], [], []);
    var c := Reported(q, NO_THREADS, map[0 := Ensuring(true)], None, 1);
    ReachNext(b, Enqueue(0, true), c);
    var d := Reported(q, NO_THREADS, map[0 := Locked(true)], Some(0), 1);
    ReachNext(c, Acquire(0), d);
    ReachNext(d, Finish(0, true), Reported(q, Pool([Fetching], Some(0), None, multiset{}), map[], None, 1));
  }

  lemma RetiringReachable()
    ensures Reachable(Reported(Rows([], [THE_ROW], [THE_ROW], [], SERVED), Pool([Retiring], Some(0), None, multiset{}),
                               map[], None, 1))
  {
    FirstReportReachable();
    hide Reachable;
    var p := Pool([Fetching], Some(0), None, multiset{});
    var a := Reported(Rows([THE_ROW], [THE_ROW], [], [], []), p, map[], None, 1);
    var b := Reported(Rows([], [THE_ROW], [], [], []), p.(threads := [Dispatching(THE_ROW, 0)]), map[], None, 1);
    ReachNext(a, Work, b);
    var c := Reported(Rows([], [THE_ROW], [], [], SERVED), p.(threads := [Dispatching(THE_ROW, 1)]), map[], None, 1);
    ReachNext(b, Work, c);
    var q := Rows([], [THE_ROW], [THE_ROW], [], SERVED);
    var d := Reported(q, p, map[], None, 1);
    ReachNext(c, Work, d);
    var e := Reported(q, p.(threads := [Waiting]), map[], None, 1);
    ReachNext(d, Work, e);
    ReachNext(e, Work, Reported(q, p.(threads := [Retiring]), map[], None, 1));
  }

  /** A row queued after the worker's last look at the queue is left to a worker that never comes. */
  lemma RowCanBeStranded()
    ensures exists s :: Reachable(s) && s.teardown.Running? && !s.errored && s.reports.active == map[]
                        && s.rows.queue != [] && !WillFetch(Current(s.pool))
  {
    RetiringReachable();
    hide Reachable;
    var (q, p) := (Rows([], [THE_ROW], [THE_ROW], [], SERVED), Pool([Retiring], Some(0), None, multiset{}));
    var a := Reported(q, p, map[], None, 1);
    var b := Reported(q, p, map[1 := Queueing(NEXT_ROW)], None, 2);
    assert Snapshot(ONE_CALLBACK, STARTED) == [User(0)];
    ReachNext(a, Start(STARTED, false, true), b);
    var q2 := q.(queue := [NEXT_ROW], history := [THE_ROW, NEXT_ROW]);
    var c := Reported(q2, p, map[1 := Ensuring(true)], None, 2);
    ReachNext(b, Enqueue(1, true), c);
    var d := Reported(q2, p, map[1 := Locked(true)], Some(1), 2);
    ReachNext(c, Acquire(1), d);
    ReachNext(d, Finish(1, true), Reported(q2, p, map[], None, 2));
  }

  // ----- After an error -----

  lemma ErrorStays(s: State, step: Step)
    requires s.errored && Enabled(s, step)
    ensures Do(s, step).errored
  {
  }

  lemma {:induction false} ErrorIsFinal(s: State, steps: seq<Step>)
    requires s.errored && CanRun(s, steps)
    ensures Run(s, steps).errored
    decreases |steps|
  {
    if steps != [] {
      ErrorStays(s, steps[0]);
      hide Do, Enabled;
      ErrorIsFinal(Do(s, steps[0]), steps[1..]);
    }
  }

  /** Once an error has happened nothing more is reported. */
  lemma ErroredStartsNothing(s: State, step: Step)
    requires s.errored && step.Start? && Enabled(s, step)
    ensures Do(s, step) == s
  {
  }

  predicate CallbackLeft(w: Worker) {
    w.Dispatching? && w.started < |w.row.callbacks|
  }

  predicate SomeQueueing(c: Reports) {
    exists r :: r in c.active && c.active[r].Queueing?
  }

  predicate SomeEnsuring(c: Reports) {
    exists r :: r in c.active && c.active[r] == Ensuring(true)
  }

  /** A report in progress can still create a worker: it has queued its row, and will not find one retiring. */
  predicate CanCreate(c: Reports, w: Worker) {
    SomeEnsuring(c) || (!w.Retiring? && exists r :: r in c.active && c.active[r] == Locked(true))
  }

  /** No row is on its way to the queue, none is being dispatched and none that waits will be fetched. */
  predicate Silent(s: State) {
    var w := Current(s.pool);
    && !SomeQueueing(s.reports) && !CallbackLeft(w)
    && (s.rows.queue == [] || (!WillFetch(w) && !CanCreate(s.reports, w)))
  }

  lemma SilentWork(s: State)
    requires Inv(s) && Silent(s) && CanWork(s)
    ensures Silent(Do(s, Work)) && Do(s, Work).rows.calls == s.rows.calls
  {
    var w := Current(s.pool);
    assert Current(Do(s, Work).pool) == NextWorker(s.rows, w, s.delay) by {
      WorkThreads(s.rows, s.pool, s.delay, s.teardown);
      hide ThreadsOk, Fifo, FreedOk, RowsOk, ReportsOk, Silent, NextWorker;
    }
    hide WorkPool, ThreadsOk, Fifo, FreedOk, RowsOk;
  }

  lemma SilentReport(s: State, step: Step)
    requires Inv(s) && Silent(s) && Enabled(s, step)
    requires step.Enqueue? || step.Acquire? || step.JoinOld? || step.Finish?
    ensures Silent(Do(s, step)) && Do(s, step).rows.calls == s.rows.calls
  {
    hide Fifo, FreedOk, RowsOk, JoinedOk;
  }

  lemma SilentStep(s: State, step: Step)
    requires Inv(s) && s.errored && Silent(s) && Enabled(s, step)
    ensures Silent(Do(s, step)) && Do(s, step).rows.calls == s.rows.calls
  {
    match step
    case Work => SilentWork(s);
    case Enqueue(_, _) => SilentReport(s, step);
    case Acquire(_) => SilentReport(s, step);
    case JoinOld(_) => SilentReport(s, step);
    case Finish(_, _) => SilentReport(s, step);
    case Start(_, _, _) => ErroredStartsNothing(s, step);
    case _ => hide Inv;
  }

  lemma {:induction false} SilentRun(s: State, steps: seq<Step>)
    requires Inv(s) && s.errored && Silent(s) && CanRun(s, steps)
    ensures Run(s, steps).rows.calls == s.rows.calls
    decreases |steps|
  {
    hide Inv, Silent, Do, Enabled;
    if steps != [] {
      StepKeeps(s, steps[0]);
      SilentStep(s, steps[0]);
      ErrorStays(s, steps[0]);
      SilentRun(Do(s, steps[0]), steps[1..]);
    }
  }

  /** How far the system is from its next call, if it can make one. */
  function Distance(s: State): nat {
    var (w, c) := (Current(s.pool), s.reports);
    match w
    case Dispatching(row, started) =>
      if c.lock.Some? then (if c.inner == c.lock then 5 else 8)
      else if c.inner == None then (if started < |row.callbacks| then 1 else 4)
      else if c.inner.value in c.active && c.active[c.inner.value].Queueing? then 7 else 6
    case Fetching | Waiting => (if s.rows.queue != [] then 2 else 3) + (if c.lock.Some? then 10 else 0)
    case Exited =>
      if c.lock.Some? then
        (if c.lock.value in c.active && c.active[c.lock.value] == Locked(true) then 19 else 23)
        + (if s.pool.destroyed.Some? then 1 else 0)
      else if s.rows.queue != [] && SomeEnsuring(c) then 21 else 22
    case Leaving => 25
    case Retiring => if c.lock == None then 26 else 27
  }

  /** The step makes a call, or brings one closer. */
  predicate Helps(s: State, step: Step) {
    && Enabled(s, step)
    && var r := Do(s, step);
       || |r.rows.calls| > |s.rows.calls|
       || (r.rows.calls == s.rows.calls && !Silent(r) && Distance(r) < Distance(s))
  }

  /** What the worker finds in a queue is a row with a callback to call. */
  lemma QueueCallbacks(s: State)
    requires Inv(s) && s.rows.queue != []
    ensures s.rows.queue[0].callbacks != []
  {
    assert s.rows.queue[0] in s.rows.history;
    assert RowOk(s.registered, s.rows.queue[0]);
    hide ThreadsOk, FreedOk, ReportsOk, CallsOf, CallsOfRow;
  }

  lemma EndReportKeeps(c: Reports, r: nat)
    requires r in c.active && c.active[r].Locked?
    ensures SomeQueueing(c) ==> SomeQueueing(EndReport(c, r))
    ensures SomeEnsuring(c) ==> SomeEnsuring(EndReport(c, r))
  {
    if x :| x in c.active && c.active[x].Queueing? { assert x in EndReport(c, r).active; }
    if x :| x in c.active && c.active[x] == Ensuring(true) { assert x in EndReport(c, r).active; }
  }

  lemma AcquireKeeps(c: Reports, r: nat, d: Reports)
    requires r in c.active && c.active[r].Ensuring? && d.active == c.active[r := Locked(c.active[r].queued)]
    ensures SomeQueueing(c) ==> SomeQueueing(d)
  {
    if x :| x in c.active && c.active[x].Queueing? { assert x in d.active && d.active[x].Queueing?; }
  }

  lemma EnqueueKeeps(c: Reports, r: nat, d: Reports)
    requires d.active == c.active[r := Ensuring(true)]
    ensures SomeEnsuring(d)
  {
    assert r in d.active && d.active[r] == Ensuring(true);
  }

  /** The end of a report helps: a worker there is may go on, and one that is missing is made. */
  lemma FinishHelps(s: State, r: nat)
    requires r in s.reports.active && s.reports.active[r].Locked? && s.pool.destroyed == None && !Silent(s)
    requires s.reports.lock == Some(r) && (s.pool.callback == None <==> Current(s.pool).Exited?)
    requires forall x :: x in s.reports.active && s.reports.active[x] == Locked(true) ==> x == r
    requires !Current(s.pool).Leaving?
    ensures Helps(s, Finish(r, true))
  {
    EndReportKeeps(s.reports, r);
    var t := Do(s, Finish(r, true));
    assert t.rows == s.rows && t.reports == EndReport(s.reports, r);
    assert t.pool == s.pool || (s.pool.callback == None && t.pool == Create(s.pool));
    hide SomeQueueing, SomeEnsuring;
    if Current(s.pool).Exited? && s.reports.active[r].queued {
      assert Current(t.pool) == Fetching;
    } else {
      assert t.pool == s.pool;
    }
  }

  lemma HelpByFinishing(s: State) returns (step: Step)
    requires Inv(s) && !Silent(s) && s.reports.lock.Some? && s.pool.destroyed == None
    ensures Helps(s, step)
  {
    var r := s.reports.lock.value;
    step := Finish(r, true);
    LockedReport(s.reports, Current(s.pool), s.teardown);
    assert !Current(s.pool).Leaving? && (s.pool.callback == None <==> Current(s.pool).Exited?);
    hide Fifo, FreedOk, RowsOk, ThreadsOk, ReportsOk, Silent, Helps;
    FinishHelps(s, r);
  }

  lemma LockedReport(c: Reports, w: Worker, d: Teardown)
    requires ReportsOk(c, w, d) && c.lock.Some?
    ensures c.lock.value in c.active && c.active[c.lock.value].Locked?
    ensures forall r :: r in c.active && c.active[r] == Locked(true) ==> r == c.lock.value
  {
  }

  lemma HelpByEnqueueing(s: State, r: nat) returns (step: Step)
    requires Inv(s) && r in s.reports.active && s.reports.active[r].Queueing? && s.reports.lock == None
    requires match Current(s.pool)
             case Dispatching(_, _) => s.reports.inner == Some(r)
             case Fetching | Waiting => s.rows.queue == []
             case Exited => s.rows.queue == [] || !SomeEnsuring(s.reports)
             case Retiring | Leaving => false
    ensures Helps(s, step)
  {
    step := Enqueue(r, true);
    EnqueueKeeps(s.reports, r, Do(s, step).reports);
    hide Fifo, FreedOk, RowsOk, JoinedOk, SomeQueueing, SomeEnsuring;
  }

  lemma HelpWhileDispatching(s: State) returns (step: Step)
    requires Inv(s) && !Silent(s) && Current(s.pool).Dispatching?
    ensures Helps(s, step)
  {
    var c := s.reports;
    if c.lock.Some? {
      step := HelpByFinishing(s);
    } else if c.inner == None {
      step := Work;
      assert Current(Do(s, Work).pool) == NextWorker(s.rows, Current(s.pool), s.delay);
      hide Fifo, FreedOk, RowsOk, JoinedOk, SomeQueueing, SomeEnsuring;
    } else if c.active[c.inner.value].Queueing? {
      step := HelpByEnqueueing(s, c.inner.value);
    } else {
      step := Acquire(c.inner.value);
      AcquireKeeps(c, c.inner.value, Do(s, step).reports);
      hide Fifo, FreedOk, RowsOk, JoinedOk, SomeQueueing, SomeEnsuring;
    }
  }

  lemma HelpByFetching(s: State) returns (step: Step)
    requires Inv(s) && s.rows.queue != [] && s.reports.lock == None
    requires Current(s.pool).Fetching? || Current(s.pool).Waiting?
    ensures Helps(s, step)
  {
    step := Work;
    QueueCallbacks(s);
    assert s.reports.inner == None;
    assert Current(Do(s, Work).pool) == Dispatching(s.rows.queue[0], 0);
    hide Fifo, FreedOk, RowsOk, ThreadsOk, ReportsOk, SomeQueueing, SomeEnsuring, WorkPool;
    assert CallbackLeft(Current(Do(s, Work).pool));
  }

  lemma HelpWhileFetching(s: State) returns (step: Step)
    requires Inv(s) && !Silent(s) && (Current(s.pool).Fetching? || Current(s.pool).Waiting?)
    ensures Helps(s, step)
  {
    if s.reports.lock.Some? {
      step := HelpByFinishing(s);
    } else if s.rows.queue != [] {
      step := HelpByFetching(s);
    } else {
      var r :| r in s.reports.active && s.reports.active[r].Queueing?;
      step := HelpByEnqueueing(s, r);
    }
  }

  lemma HelpWhileRetiring(s: State) returns (step: Step)
    requires Inv(s) && !Silent(s) && (Current(s.pool).Retiring? || Current(s.pool).Leaving?)
    ensures Helps(s, step)
  {
    if Current(s.pool).Retiring? && s.reports.lock.Some? {
      step := HelpByFinishing(s);
    } else {
      step := Work;
      assert Current(Do(s, Work).pool) == NextWorker(s.rows, Current(s.pool), s.delay);
      hide Fifo, FreedOk, RowsOk, JoinedOk, SomeQueueing, SomeEnsuring;
    }
  }

  lemma HelpWhileExited(s: State) returns (step: Step)
    requires Inv(s) && !Silent(s) && Current(s.pool).Exited?
    ensures Helps(s, step)
  {
    var c := s.reports;
    if c.lock.Some? && s.pool.destroyed.Some? {
      step := JoinOld(c.lock.value);
      hide Fifo, FreedOk, RowsOk, JoinedOk, SomeQueueing, SomeEnsuring;
    } else if c.lock.Some? {
      step := HelpByFinishing(s);
    } else if s.rows.queue != [] && SomeEnsuring(c) {
      var r :| r in c.active && c.active[r] == Ensuring(true);
      step := Acquire(r);
      assert r in Do(s, step).reports.active && Do(s, step).reports.active[r] == Locked(true);
      hide Fifo, FreedOk, RowsOk, JoinedOk, SomeQueueing, SomeEnsuring;
    } else {
      assert SomeQueueing(c);
      var r :| r in c.active && c.active[r].Queueing?;
      step := HelpByEnqueueing(s, r);
    }
  }

  /** A system that is not silent can make a call. */
  lemma {:induction false} CallFollows(s: State) returns (steps: seq<Step>)
    requires Inv(s) && !Silent(s)
    ensures CanRun(s, steps) && |Run(s, steps).rows.calls| > |s.rows.calls|
    decreases Distance(s)
  {
    hide Inv, Silent, Distance, Do, Enabled;
    var step;
    match Current(s.pool) {
      case Dispatching(_, _) => step := HelpWhileDispatching(s);
      case Fetching => step := HelpWhileFetching(s);
      case Waiting => step := HelpWhileFetching(s);
      case Retiring => step := HelpWhileRetiring(s);
      case Leaving => step := HelpWhileRetiring(s);
      case Exited => step := HelpWhileExited(s);
    }
    StepKeeps(s, step);
    var r := Do(s, step);
    var rest := [];
    if |r.rows.calls| > |s.rows.calls| {
      assert CanRun(r, rest) && Run(r, rest) == r;
    } else {
      rest := CallFollows(r);
    }
    CanRunCons(s, step, rest);
    steps := [step] + rest;
  }

  /**
   * After an error no call follows, whatever any thread does, exactly when no report has a row still
   * to queue, the worker has no callback left to start, and the rows that wait find no worker: none
   * that will fetch them and no report that can create one.
   */
  lemma NoCallFollowsIff(s: State)
    requires Inv(s) && s.errored
    ensures (forall steps :: CanRun(s, steps) ==> Run(s, steps).rows.calls == s.rows.calls) <==> Silent(s)
  {
    hide Inv, Silent;
    if Silent(s) {
      forall steps | CanRun(s, steps) ensures Run(s, steps).rows.calls == s.rows.calls {
        SilentRun(s, steps);
      }
    } else {
      var steps := CallFollows(s);
    }
  }

  /** The state after an error, with one report on its way that was started before it. */
  function AfterError(rows: Rows, pool: Pool, active: map<nat, Report>, lock: Option<nat>): State {
    Reported(rows, pool, active, lock, 1).(errored := true)
  }

  lemma ErrorLeadsToWorker()
    ensures LeadsTo(AfterError(NO_ROWS, NO_THREADS, map[0 := Queueing(THE_ROW)], None),
                    AfterError(Rows([THE_ROW], [THE_ROW], [], [], []), Pool([Fetching], Some(0), None, multiset{}),
                               map[], None))
  {
    var a := AfterError(NO_ROWS, NO_THREADS, map[0 := Queueing(THE_ROW)], None);
    LeadsNowhere(a);
    hide LeadsTo;
    var q := Rows([THE_ROW], [THE_ROW], [], [], []);
    var b := AfterError(q, NO_THREADS, map[0 := Ensuring(true)], None);
    LeadNext(a, a, Enqueue(0, true), b);
    var c := AfterError(q, NO_THREADS, map[0 := Locked(true)], Some(0));
    LeadNext(a, b, Acquire(0), c);
    LeadNext(a, c, Finish(0, true), AfterError(q, Pool([Fetching], Some(0), None, multiset{}), map[], None));
  }

  /**
   * After an error a row can still be queued, a worker created for it and its callback called: the
   * requirement that no further callbacks are called is not met.
   */
  lemma CallAfterError()
    ensures exists s, r :: && Reachable(s) && s.errored && s.rows.history == [] && s.pool.threads == []
                           && LeadsTo(s, r) && r.rows.calls == [CallRecord(STARTED, User(0), 0)]
  {
    FirstQueueingReachable();
    ErrorLeadsToWorker();
    hide Reachable, LeadsTo;
    var s := Reported(NO_ROWS, NO_THREADS, map[0 := Queueing(THE_ROW)], None, 1);
    var a := AfterError(NO_ROWS, NO_THREADS, map[0 := Queueing(THE_ROW)], None);
    ReachNext(s, Register(STARTED, 1, false), a);
    var p := Pool([Fetching], Some(0), None, multiset{});
    var d := AfterError(Rows([THE_ROW], [THE_ROW], [], [], []), p, map[], None);
    var e := AfterError(Rows([], [THE_ROW], [], [], []), p.(threads := [Dispatching(THE_ROW, 0)]), map[], None);
    LeadNext(a, d, Work, e);
    var f := AfterError(Rows([], [THE_ROW], [], [], SERVED), p.(threads := [Dispatching(THE_ROW, 1)]), map[], None);
    LeadNext(a, e, Work, f);
  }

  // ----- Destroy returns -----

  lemma {:induction false} DrainEnds(s: State) returns (steps: seq<Step>)
    requires s.teardown.Draining?
    ensures CanRun(s, steps) && Run(s, steps).teardown.Done?
    ensures var q := Run(s, steps).rows;
            && q.dispatched == s.rows.dispatched && q.history == s.rows.history
            && (s.rows.queue == [] ==> q.freed == s.rows.freed)
    decreases |s.rows.queue|
  {
    var r := Do(s, Drain);
    var rest := [];
    if s.rows.queue == [] {
      assert CanRun(r, rest) && Run(r, rest) == r;
    } else {
      rest := DrainEnds(r);
    }
    steps := [Drain] + rest;
    assert steps[1..] == rest;
  }

  lemma JoinEnds(s: State) returns (steps: seq<Step>)
    requires Inv(s) && s.teardown.Joining? && Current(s.pool).Exited?
    ensures CanRun(s, steps)
    ensures var r := Run(s, steps); r.teardown.Draining? && r.rows == s.rows && r.reports == s.reports
    decreases s.teardown.callback.Some?, s.teardown.destroyed.Some?
  {
    assert s.teardown.callback.Some? || s.teardown.destroyed.Some? ==> |s.pool.threads| > 0;
    StepKeeps(s, JoinCopy);
    var r := Do(s, JoinCopy);
    var rest := [];
    if r.teardown.Draining? {
      assert CanRun(r, rest) && Run(r, rest) == r;
    } else {
      rest := JoinEnds(r);
    }
    steps := [JoinCopy] + rest;
    assert steps[1..] == rest;
  }

  /** The first two steps of Destroy, up to its copies of the thread handles. */
  lemma DestroyStarts(s: State) returns (r: State)
    requires Inv(s) && s.teardown.Running? && s.reports.active == map[]
    ensures CanRun(s, [Destroy, Copy]) && r == Run(s, [Destroy, Copy])
    ensures Inv(r) && r.teardown.Joining? && r.rows == s.rows && r.reports == s.reports && r.pool == s.pool
    ensures s.reports.inner == None && s.reports.lock == None
  {
    assert s.reports.inner == None && s.reports.lock == None by { hide Fifo, FreedOk, RowsOk, ThreadsOk; }
    StepKeeps(s, Destroy);
    var a := Do(s, Destroy);
    StepKeeps(a, Copy);
    hide Inv;
    r := Do(a, Copy);
    assert CanRun(r, []) && Run(r, []) == r;
    CanRunCons(a, Copy, []);
    CanRunCons(s, Destroy, [Copy]);
    assert [Copy] + [] == [Copy] && [Destroy] + [Copy] == [Destroy, Copy];
  }

  /**
   * Destroy can always return, whatever the worker is doing, and if the worker had not made its last
   * look at the queue every row is dispatched first.
   */
  lemma DestroyReturns(s: State) returns (steps: seq<Step>)
    requires Inv(s) && s.teardown.Running? && s.reports.active == map[]
    ensures CanRun(s, steps) && Run(s, steps).teardown.Done?
    ensures WillFetch(Current(s.pool)) ==> Run(s, steps).rows.dispatched == s.rows.history
  {
    var b := DestroyStarts(s);
    assert s.rows.freed == [] by { hide Fifo, RowsOk, ThreadsOk, ReportsOk; }
    hide WillFetch, Current, Run, CanRun;
    var works := WorkerEnds(b);
    steps := [Destroy, Copy] + works;
    RunAppend(s, [Destroy, Copy], works);
    var joins := JoinEnds(Run(s, steps));
    RunAppend(s, steps, joins);
    steps := steps + joins;
    RunKeeps(s, steps);
    if WillFetch(Current(s.pool)) {
      DispatchedAll(Run(s, steps));
    }
    var drains := DrainEnds(Run(s, steps));
    RunAppend(s, steps, drains);
    steps := steps + drains;
  }

  lemma DispatchedAll(s: State)
    requires Inv(s) && s.teardown.Draining? && s.rows.freed == [] && s.rows.queue == []
    ensures s.rows.dispatched == s.rows.history
  {
    hide RowsOk, ThreadsOk, ReportsOk, CallsOf;
  }
}
