/**
 * What a report to the event system comes to: the callbacks registered for its event when it was
 * made, each called once and in order if its row is dispatched.
 */
module EventLaws {
  import opened Bytes
  import opened EventSystem

  // ----- Registering and reporting -----

  /** A callback that is registered comes last for its own event; no other event changes. */
  lemma RegisterIs(s: State, event: Event, id: nat, ok: bool)
    requires Enabled(s, Register(event, id, ok))
    ensures var r := Do(s, Register(event, id, ok));
            if ok then r == s.(registered := r.registered) else r == s.(errored := true)
    ensures var r := Do(s, Register(event, id, ok));
            r.registered.Keys == s.registered.Keys
            && forall e :: e in s.registered ==>
                 r.registered[e] == s.registered[e] + if ok && e == event then [User(id)] else []
  {
    var r := Do(s, Register(event, id, ok));
    forall e | e in s.registered ensures s.registered[e] + [] == s.registered[e] {}
  }

  /** The callbacks a report has to call: those registered, and for a module list the one that frees it. */
  function ToCall(registered: Registry, event: Event): seq<Closure>
    requires event in registered
  {
    if event == MODULE_LIST_CHANGED then registered[event] + [DestroyModuleList] else registered[event]
  }

  /**
   * A report is accepted exactly when no error has happened, a callback is registered for the event
   * and memory suffices; then it has a row with all of them.  Without memory it is an error.
   */
  lemma StartIs(s: State, event: Event, nested: bool, ok: bool)
    requires Enabled(s, Start(event, nested, ok))
    ensures var (r, n) := (Do(s, Start(event, nested, ok)), s.reports.next);
            if s.errored || s.registered[event] == [] then r == s
            else if !ok then r == s.(errored := true)
            else
              && r == s.(reports := r.reports) && r.reports.next == n + 1 && r.reports.lock == s.reports.lock
              && r.reports.active == s.reports.active[n := Queueing(Row(event, ToCall(s.registered, event), n))]
              && r.reports.inner == if nested then Some(n) else s.reports.inner
  {
    assert s.registered[event] + [] == s.registered[event];
  }

  /** It is an error if the row cannot be queued or a worker cannot be made; nothing else at the end of a report is. */
  lemma FinishIs(s: State, r: nat, ok: bool)
    requires Enabled(s, Finish(r, ok))
    ensures var (t, queued) := (Do(s, Finish(r, ok)), s.reports.active[r].queued);
            && (t.errored <==> s.errored || !queued || (s.pool.callback == None && !ok))
            && (|t.pool.threads| > |s.pool.threads| <==> queued && s.pool.callback == None && ok)
            && r !in t.reports.active && t.rows == s.rows
  {
  }

  lemma EnqueueIs(s: State, r: nat, ok: bool)
    requires Enabled(s, Enqueue(r, ok))
    ensures var t := Do(s, Enqueue(r, ok));
            && t.rows.queue == s.rows.queue + (if ok then [s.reports.active[r].row] else [])
            && t.rows.history == s.rows.history + (if ok then [s.reports.active[r].row] else [])
            && t.reports.active == s.reports.active[r := Ensuring(ok)]
  {
    assert s.rows.queue + [] == s.rows.queue && s.rows.history + [] == s.rows.history;
  }

  /** Once Destroy was called no worker waits for more: one that finds the queue empty retires. */
  lemma {:induction false} NoDelayAfterDestroy(s: State, steps: seq<Step>)
    requires CanRun(s, steps) && (s.teardown.Running? || !s.delay)
    ensures var r := Run(s, steps);
            && (r.teardown.Running? || !r.delay)
            && (!r.teardown.Running? && Current(r.pool) == Fetching && r.rows.queue == [] ==>
                  CanWork(r) && Current(Do(r, Work).pool) == Retiring)
    decreases |steps|
  {
    if steps != [] {
      DelayStep(s, steps[0]);
      hide Do, Enabled;
      NoDelayAfterDestroy(Do(s, steps[0]), steps[1..]);
    }
  }

  lemma DelayStep(s: State, step: Step)
    requires Enabled(s, step) && (s.teardown.Running? || !s.delay)
    ensures Do(s, step).teardown.Running? || !Do(s, step).delay
  {
    hide WorkPool, WorkRows;
  }

  // ----- Every row has its report -----

  /** Rows are told apart by the numbers of their reports. */
  ghost predicate Numbered(s: State) {
    && (forall r :: r in s.reports.active ==> r < s.reports.next)
    && (forall r :: r in s.reports.active && s.reports.active[r].Queueing? ==> s.reports.active[r].row.report == r)
    && (forall row :: row in s.rows.history ==>
          row.report < s.reports.next
          && !(row.report in s.reports.active && s.reports.active[row.report].Queueing?))
    && (forall i, j :: 0 <= i < j < |s.rows.history| ==> s.rows.history[i].report != s.rows.history[j].report)
  }

  /** The report with this number has this row, wherever it is. */
  ghost predicate HasRow(s: State, r: nat, row: Row) {
    && r < s.reports.next
    && (r in s.reports.active && s.reports.active[r].Queueing? ==> s.reports.active[r].row == row)
    && (forall x :: x in s.rows.history && x.report == r ==> x == row)
  }

  lemma WorkHistory(s: State)
    requires CanWork(s)
    ensures Do(s, Work).rows.history == s.rows.history && Do(s, Work).reports == s.reports
  {
    hide WorkPool;
  }

  lemma NumberedEnqueue(s: State, r: nat)
    requires Numbered(s) && Enabled(s, Enqueue(r, true))
    ensures Numbered(Do(s, Enqueue(r, true)))
  {
    var (h, row) := (s.rows.history, s.reports.active[r].row);
    forall i | 0 <= i < |h| ensures h[i].report != row.report {
      assert h[i] in h;
    }
  }

  lemma NumberedStep(s: State, step: Step)
    requires Numbered(s) && Enabled(s, step)
    ensures Numbered(Do(s, step))
  {
    match step
    case Work => WorkHistory(s); hide Do, CanWork;
    case Enqueue(r, ok) => if ok { NumberedEnqueue(s, r); hide Do, Enabled; }
    case _ =>
  }

  lemma RowStep(s: State, step: Step, r: nat, row: Row)
    requires Numbered(s) && HasRow(s, r, row) && Enabled(s, step)
    ensures HasRow(Do(s, step), r, row)
  {
    match step
    case Work => WorkHistory(s); hide Do, CanWork;
    case _ =>
  }

  lemma {:induction false} RowRun(s: State, steps: seq<Step>, r: nat, row: Row)
    requires Numbered(s) && HasRow(s, r, row) && CanRun(s, steps)
    ensures Numbered(Run(s, steps)) && HasRow(Run(s, steps), r, row)
    decreases |steps|
  {
    if steps != [] {
      NumberedStep(s, steps[0]);
      RowStep(s, steps[0], r, row);
      hide Numbered, HasRow, Do, Enabled;
      RowRun(Do(s, steps[0]), steps[1..], r, row);
    }
  }

  lemma {:induction false} NumberedRun(s: State, steps: seq<Step>)
    requires Numbered(s) && CanRun(s, steps)
    ensures Numbered(Run(s, steps))
    decreases |steps|
  {
    if steps != [] {
      NumberedStep(s, steps[0]);
      hide Numbered, Do, Enabled;
      NumberedRun(Do(s, steps[0]), steps[1..]);
    }
  }

  // ----- The calls of one report -----

  function CallsFor(calls: seq<CallRecord>, r: nat): seq<CallRecord> {
    if calls == [] then []
    else CallsFor(calls[..|calls| - 1], r)
         + if calls[|calls| - 1].report == r then [calls[|calls| - 1]] else []
  }

  lemma {:induction false} CallsForAppend(a: seq<CallRecord>, b: seq<CallRecord>, r: nat)
    ensures CallsFor(a + b, r) == CallsFor(a, r) + CallsFor(b, r)
  {
    if b == [] {
      assert a + b == a;
    } else {
      assert (a + b)[..|a + b| - 1] == a + b[..|b| - 1];
      CallsForAppend(a, b[..|b| - 1], r);
    }
  }

  lemma {:induction false} CallsForRow(row: Row, n: nat, r: nat)
    requires n <= |row.callbacks|
    ensures CallsFor(CallsOfRow(row, n), r) == if row.report == r then CallsOfRow(row, n) else []
  {
    if n > 0 {
      CallsForRow(row, n - 1, r);
      CallsForAppend(CallsOfRow(row, n - 1), [CallRecord(row.event, row.callbacks[n - 1], row.report)], r);
      var c := [CallRecord(row.event, row.callbacks[n - 1], row.report)];
      assert CallsFor(c[..0], r) == [];
    }
  }

  /** The rows have different numbers. */
  predicate Different(rows: seq<Row>) {
    forall i, j :: 0 <= i < j < |rows| ==> rows[i].report != rows[j].report
  }

  lemma {:induction false} CallsForRows(rows: seq<Row>, r: nat)
    requires Different(rows)
    ensures (forall row :: row in rows ==> row.report != r) ==> CallsFor(CallsOf(rows), r) == []
    ensures forall row :: row in rows && row.report == r ==>
              CallsFor(CallsOf(rows), r) == CallsOfRow(row, |row.callbacks|)
  {
    if rows != [] {
      var (front, last) := (rows[..|rows| - 1], rows[|rows| - 1]);
      CallsForRows(front, r);
      CallsForRow(last, |last.callbacks|, r);
      CallsForAppend(CallsOf(front), CallsOfRow(last, |last.callbacks|), r);
      forall row | row in front ensures row.report != last.report {
        var i :| 0 <= i < |front| && front[i] == row;
        assert rows[i].report != rows[|rows| - 1].report;
      }
      assert forall row :: row in rows <==> row in front || row == last;
      hide CallsFor, Different;
    }
  }

  /** The calls made for a report are those of its row as far as it has come, and none besides. */
  lemma CallsOfReport(s: State, r: nat, row: Row)
    requires Inv(s) && Numbered(s) && HasRow(s, r, row)
    ensures row.report == r && row in s.rows.dispatched ==>
              CallsFor(s.rows.calls, r) == CallsOfRow(row, |row.callbacks|)
    ensures row.report == r && row !in s.rows.dispatched ==>
              CallsFor(s.rows.calls, r)
              == if InDispatch(Current(s.pool)) == [row] && Current(s.pool).started <= |row.callbacks|
                 then CallsOfRow(row, Current(s.pool).started) else []
  {
    var (q, w) := (s.rows, Current(s.pool));
    DispatchedAreDifferent(q, w);
    CallsForRows(q.dispatched, r);
    if w.Dispatching? {
      CallsForRow(w.row, w.started, r);
      CallsForAppend(CallsOf(q.dispatched), CallsOfRow(w.row, w.started), r);
      assert w.row in q.history;
    } else {
      assert CallsOf(q.dispatched) + [] == CallsOf(q.dispatched);
    }
    forall x | x in q.dispatched && x.report == r ensures x == row {
      assert x in q.history;
    }
    hide CallsFor, CallsOf, CallsOfRow, ThreadsOk, RowsOk, FreedOk, ReportsOk;
  }

  lemma DispatchedAreDifferent(q: Rows, w: Worker)
    requires Fifo(q, w) && forall i, j :: 0 <= i < j < |q.history| ==> q.history[i].report != q.history[j].report
    ensures Different(q.dispatched)
    ensures w.Dispatching? ==> forall x :: x in q.dispatched ==> x.report != w.row.report
  {
    var n := |q.dispatched|;
    assert forall i :: 0 <= i < n ==> q.history[i] == q.dispatched[i];
    if w.Dispatching? {
      assert q.history[n] == w.row;
    }
    hide CallsOf, CallsOfRow;
  }

  lemma NumberedInitially()
    ensures Numbered(INITIAL)
  {
  }

  /** The report that an accepted Start makes has its row from the beginning. */
  lemma StartHasRow(s: State, event: Event, nested: bool)
    requires Numbered(s) && Enabled(s, Start(event, nested, true)) && !s.errored && s.registered[event] != []
    ensures var (t, r) := (Do(s, Start(event, nested, true)), s.reports.next);
            Numbered(t) && HasRow(t, r, Row(event, ToCall(s.registered, event), r))
  {
    StartIs(s, event, nested, true);
    hide Do, ToCall;
  }

  /**
   * What a report comes to, in every run: its row lists every callback registered for the event when
   * it was made, in order, and then, exactly for a module list, the one that frees it.  No other row
   * has its number.  Its calls are a beginning of that list, each made once and in order, and the
   * whole list once the row is dispatched.
   */
  lemma ReportedIsCalled(before: seq<Step>, event: Event, nested: bool, after: seq<Step>)
    requires CanRun(INITIAL, before)
    requires var s := Run(INITIAL, before);
             && Enabled(s, Start(event, nested, true)) && !s.errored && s.registered[event] != []
             && CanRun(Do(s, Start(event, nested, true)), after)
    ensures var s := Run(INITIAL, before);
            var (t, r) := (Run(Do(s, Start(event, nested, true)), after), s.reports.next);
            var list := s.registered[event] + if event == MODULE_LIST_CHANGED then [DestroyModuleList] else [];
            var made := CallsFor(t.rows.calls, r);
            && (forall row :: row in t.rows.history && row.report == r ==> row == Row(event, list, r))
            && |made| <= |list| && (forall i :: 0 <= i < |made| ==> made[i] == CallRecord(event, list[i], r))
            && ((exists row :: row in t.rows.dispatched && row.report == r) ==> |made| == |list|)
  {
    var s := Run(INITIAL, before);
    var (u, r) := (Do(s, Start(event, nested, true)), s.reports.next);
    var row := Row(event, ToCall(s.registered, event), r);
    NumberedInitially();
    NumberedRun(INITIAL, before);
    StartHasRow(s, event, nested);
    RowRun(u, after, r, row);
    ReachedOk(before);
    StepKeeps(s, Start(event, nested, true));
    RunKeeps(u, after);
    var t := Run(u, after);
    CallsOfReport(t, r, row);
    assert s.registered[event] + [] == s.registered[event];
    hide Run, CanRun, Do, Enabled, CallsFor, Numbered;
    forall x | x in t.rows.dispatched ensures x in t.rows.history {
      DispatchedInHistory(t, x);
    }
    hide Inv;
  }

  lemma DispatchedInHistory(s: State, row: Row)
    requires Inv(s) && row in s.rows.dispatched
    ensures row in s.rows.history
  {
    hide ThreadsOk, RowsOk, FreedOk, ReportsOk, CallsOf, CallsOfRow;
  }
}
