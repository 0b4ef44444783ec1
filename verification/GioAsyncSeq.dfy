/** The sequencer of asynchronous GLib calls (modules/ble/src/gio_async_seq.c). */
module GioAsyncSeq {
  import opened Bytes

  /** A gpointer; NULL is None. */
  type Pointer = Option<nat>

  /** A GIO_ASYNCSEQ_CALLBACK_DATA: the start and finish callbacks by identity, and their context. */
  datatype CallbackData = CallbackData(callback: nat, finish: nat, context: Pointer)

  /** A start callback and the argument after it, which should be its finish callback. */
  datatype Pair = Pair(callback: nat, finish: Pointer)

  datatype SeqState = PENDING | RUNNING | COMPLETE | ERROR

  /** What a finish callback reports. */
  datatype Outcome = Success(result: Pointer) | Failure(error: nat)

  /** The callbacks the sequencer makes. */
  datatype Event =
    | Started(data: CallbackData, previous: Pointer)
    | Finished(finish: nat)
    | Completed(result: Pointer)
    | Failed(error: nat)
    | NotRunning

  datatype State = State(callbacks: seq<CallbackData>, index: nat, state: SeqState, events: seq<Event>)

  const INITIAL := State([], 0, PENDING, [])

  // ----- The operations -----

  /** The pairs can be added: every finish callback is there and memory suffices for each. */
  predicate Addable(pairs: seq<Pair>, noMemory: set<nat>) {
    forall i :: 0 <= i < |pairs| ==> pairs[i].finish.Some? && i !in noMemory
  }

  function DataOf(pairs: seq<Pair>, context: Pointer): seq<CallbackData>
    requires Addable(pairs, {})
  {
    seq(|pairs|, i requires 0 <= i < |pairs| => CallbackData(pairs[i].callback, pairs[i].finish.value, context))
  }

  function Added(s: State, context: Pointer, pairs: seq<Pair>, noMemory: set<nat>): (State, bool) {
    if s.state.PENDING? && Addable(pairs, noMemory) then
      (s.(callbacks := s.callbacks + DataOf(pairs, context)), true)
    else (s, false)
  }

  function Start(s: State, i: nat, previous: Pointer): State
    requires i < |s.callbacks|
  {
    s.(index := i, state := RUNNING, events := s.events + [Started(s.callbacks[i], previous)])
  }

  function Complete(s: State, i: nat, result: Pointer): State {
    s.(index := i, state := COMPLETE, events := s.events + [Completed(result)])
  }

  function Begun(s: State): (State, bool) {
    if s.state.RUNNING? then (s, false)
    else if s.callbacks == [] then (Complete(s, 0, None), true)
    else (Start(s, 0, None), true)
  }

  predicate Inv(s: State) {
    s.state.RUNNING? ==> s.index < |s.callbacks|
  }

  /** resolve_callback; what the finish callback reports only matters in the running state. */
  function Resolve(s: State, o: Outcome): State
    requires Inv(s)
  {
    if !s.state.RUNNING? then s.(state := ERROR, events := s.events + [NotRunning])
    else
      var t := s.(events := s.events + [Finished(s.callbacks[s.index].finish)]);
      match o
      case Failure(e) => t.(state := ERROR, events := t.events + [Failed(e)])
      case Success(v) =>
        if s.index + 1 < |s.callbacks| then Start(t, s.index + 1, v) else Complete(t, s.index + 1, v)
  }

  /** A successful call adds each pair as it was given, with the context of the call; any other adds nothing. */
  lemma AddedSays(s: State, context: Pointer, pairs: seq<Pair>, noMemory: set<nat>)
    ensures var (r, ok) := Added(s, context, pairs, noMemory);
            && (ok <==> s.state == PENDING
                        && forall i :: 0 <= i < |pairs| ==> pairs[i].finish != None && i !in noMemory)
            && (!ok ==> r == s)
            && (ok ==>
                  && r == s.(callbacks := r.callbacks)
                  && |r.callbacks| == |s.callbacks| + |pairs| && r.callbacks[..|s.callbacks|] == s.callbacks
                  && forall i :: 0 <= i < |pairs| ==>
                       var d := r.callbacks[|s.callbacks| + i];
                       d.callback == pairs[i].callback && Some(d.finish) == pairs[i].finish && d.context == context)
  {
    hide INITIAL;
  }

  /** A result outside a run is reported as an error, moves nothing on and starts nothing. */
  lemma LateResult(s: State, o: Outcome)
    requires Inv(s) && !s.state.RUNNING?
    ensures Resolve(s, o) == s.(state := ERROR, events := s.events + [NotRunning])
  {
  }

  // ----- Every run -----

  datatype Op = OpAdd(context: Pointer, pairs: seq<Pair>, noMemory: set<nat>) | OpRun | OpResolve(o: Outcome)

  function Apply(s: State, op: Op): State
    requires Inv(s)
  {
    match op
    case OpAdd(context, pairs, noMemory) => Added(s, context, pairs, noMemory).0
    case OpRun => Begun(s).0
    case OpResolve(o) => Resolve(s, o)
  }

  /** The operations in progress never lose their place, whatever is called in between. */
  lemma ApplyKeeps(s: State, op: Op)
    requires Inv(s)
    ensures Inv(Apply(s, op))
    ensures s.callbacks <= Apply(s, op).callbacks && s.events <= Apply(s, op).events
    ensures s.state.RUNNING? && !op.OpResolve? ==> Apply(s, op) == s
    ensures s.state.RUNNING? && op.OpResolve? && Apply(s, op).state.RUNNING? ==>
              |s.callbacks| - Apply(s, op).index < |s.callbacks| - s.index
  {
  }

  function ApplyAll(s: State, ops: seq<Op>): State
    requires Inv(s)
    decreases |ops|
  {
    if ops == [] then s
    else
      ApplyKeeps(s, ops[0]);
      ApplyAll(Apply(s, ops[0]), ops[1..])
  }

  /** The index stays within the list while the sequence runs. */
  lemma {:induction false} IndexInList(s: State, ops: seq<Op>)
    requires Inv(s)
    ensures Inv(ApplyAll(s, ops)) && s.callbacks <= ApplyAll(s, ops).callbacks
    decreases |ops|
  {
    if ops != [] {
      ApplyKeeps(s, ops[0]);
      IndexInList(Apply(s, ops[0]), ops[1..]);
    }
  }

  // ----- The story of one run of the sequence -----

  function Resolves(os: seq<Outcome>): seq<Op> {
    seq(|os|, i requires 0 <= i < |os| => OpResolve(os[i]))
  }

  /** The number of successes before the first failure. */
  function Successes(os: seq<Outcome>): (n: nat)
    ensures n <= |os| && (n < |os| ==> os[n].Failure?)
    ensures forall i :: 0 <= i < n ==> os[i].Success?
  {
    if os == [] || os[0].Failure? then 0 else 1 + Successes(os[1..])
  }

  /** What operation k is given: the result before it, or NULL for the first. */
  function Previous(os: seq<Outcome>, k: nat): Pointer {
    if 0 < k <= |os| && os[k - 1].Success? then os[k - 1].result else None
  }

  function StartOf(callbacks: seq<CallbackData>, os: seq<Outcome>, k: nat): Event
    requires k < |callbacks|
  {
    Started(callbacks[k], Previous(os, k))
  }

  /**
   * The calls of the first k operations: each is started, in order and with the result of the one
   * before it, and finished by its own callback before the next one starts.
   */
  function Calls(callbacks: seq<CallbackData>, os: seq<Outcome>, k: nat): (r: seq<Event>)
    requires k <= |callbacks|
    ensures |r| == 2 * k
  {
    if k == 0 then []
    else Calls(callbacks, os, k - 1) + [StartOf(callbacks, os, k - 1), Finished(callbacks[k - 1].finish)]
  }

  /** The state of the sequence when the results os have come in since it was started in s. */
  function After(s: State, os: seq<Outcome>): State
    requires !s.state.RUNNING?
  {
    var (k, n) := (Successes(os), |s.callbacks|);
    if k < n && k == |os| then
      State(s.callbacks, k, RUNNING, s.events + (Calls(s.callbacks, os, k) + [StartOf(s.callbacks, os, k)]))
    else if k < n then
      State(s.callbacks, k, ERROR, s.events + (Calls(s.callbacks, os, k + 1) + [Failed(os[k].error)]))
    else
      State(s.callbacks, n, COMPLETE, s.events + (Calls(s.callbacks, os, n) + [Completed(Previous(os, n))]))
  }

  /** As many results as a run of the sequence takes: up to the first failure or the last operation. */
  predicate Needed(s: State, os: seq<Outcome>) {
    |os| <= |s.callbacks| && Successes(os) + 1 >= |os|
  }

  lemma {:induction false} ApplySnoc(s: State, ops: seq<Op>, op: Op)
    requires Inv(s)
    ensures Inv(ApplyAll(s, ops)) && ApplyAll(s, ops + [op]) == Apply(ApplyAll(s, ops), op)
    decreases |ops|
  {
    IndexInList(s, ops);
    if ops == [] {
      assert [op][1..] == [];
    } else {
      ApplyKeeps(s, ops[0]);
      assert (ops + [op])[1..] == ops[1..] + [op];
      ApplySnoc(Apply(s, ops[0]), ops[1..], op);
    }
  }

  lemma {:induction false} SuccessesSnoc(os: seq<Outcome>, o: Outcome)
    requires Successes(os) == |os|
    ensures Successes(os + [o]) == if o.Success? then |os| + 1 else |os|
  {
    if os != [] {
      assert (os + [o])[1..] == os[1..] + [o];
      SuccessesSnoc(os[1..], o);
    }
  }

  /** What has been called does not depend on the results that are still to come. */
  lemma {:induction false} CallsKept(callbacks: seq<CallbackData>, os: seq<Outcome>, o: Outcome, k: nat)
    requires k <= |callbacks| && k <= |os| + 1
    ensures Calls(callbacks, os + [o], k) == Calls(callbacks, os, k)
    ensures k <= |os| ==> Previous(os + [o], k) == Previous(os, k)
  {
    if k > 0 {
      CallsKept(callbacks, os, o, k - 1);
    }
  }

  lemma {:induction false} AfterFailure(s: State, os: seq<Outcome>, o: Outcome)
    requires !s.state.RUNNING? && Successes(os) == |os| < |s.callbacks| && o.Failure?
    ensures Inv(After(s, os)) && Resolve(After(s, os), o) == After(s, os + [o])
  {
    var k := |os|;
    SuccessesSnoc(os, o);
    CallsKept(s.callbacks, os, o, k + 1);
    assert (os + [o])[k] == o;
    hide Successes, StartOf, Previous;
    var (calls, f) := (Calls(s.callbacks, os, k), Finished(s.callbacks[k].finish));
    assert s.events + (calls + [StartOf(s.callbacks, os, k)]) + [f] + [Failed(o.error)]
        == s.events + (calls + [StartOf(s.callbacks, os, k), f] + [Failed(o.error)]);
  }

  lemma {:induction false} AfterSuccess(s: State, os: seq<Outcome>, o: Outcome)
    requires !s.state.RUNNING? && Successes(os) == |os| < |s.callbacks| && o.Success?
    ensures Inv(After(s, os)) && Resolve(After(s, os), o) == After(s, os + [o])
  {
    var k := |os|;
    SuccessesSnoc(os, o);
    CallsKept(s.callbacks, os, o, k + 1);
    assert Previous(os + [o], k + 1) == o.result;
    hide Successes, Previous;
    var (calls, f) := (Calls(s.callbacks, os, k), Finished(s.callbacks[k].finish));
    var next := if k + 1 < |s.callbacks| then Started(s.callbacks[k + 1], o.result) else Completed(o.result);
    assert s.events + (calls + [StartOf(s.callbacks, os, k)]) + [f] + [next]
        == s.events + (calls + [StartOf(s.callbacks, os, k), f] + [next]);
  }

  lemma {:induction false} AfterSnoc(s: State, os: seq<Outcome>, o: Outcome)
    requires !s.state.RUNNING? && Successes(os) == |os| < |s.callbacks|
    ensures Inv(After(s, os)) && Resolve(After(s, os), o) == After(s, os + [o])
  {
    if o.Success? { AfterSuccess(s, os, o); } else { AfterFailure(s, os, o); }
    hide Successes, After, Resolve, Inv;
  }

  /**
   * A run starts the operations in list order, each with the previous result, finishes each by its
   * own callback, and completes after the last one or stops at the first failure; it may be started
   * again whenever it does not run.
   */
  lemma {:induction false} RunTellsStory(s: State, os: seq<Outcome>)
    requires !s.state.RUNNING? && Needed(s, os)
    ensures Begun(s).1 && ApplyAll(Begun(s).0, Resolves(os)) == After(s, os)
    decreases |os|
  {
    if os == [] {
      assert s.callbacks != [] ==>
               Calls(s.callbacks, [], 0) + [StartOf(s.callbacks, [], 0)] == [Started(s.callbacks[0], None)];
      assert Calls(s.callbacks, [], 0) + [Completed(None)] == [Completed(None)];
    } else {
      var (front, last) := (os[..|os| - 1], os[|os| - 1]);
      assert os == front + [last];
      AllSucceeded(front, last);
      RunTellsStory(s, front);
      assert Resolves(os) == Resolves(front) + [OpResolve(last)];
      ApplySnoc(Begun(s).0, Resolves(front), OpResolve(last));
      AfterSnoc(s, front, last);
    }
    hide Calls, StartOf, Successes, After, Resolve;
  }

  lemma {:induction false} AllSucceeded(os: seq<Outcome>, o: Outcome)
    requires Successes(os + [o]) >= |os|
    ensures Successes(os) == |os|
  {
    if os != [] {
      assert (os + [o])[1..] == os[1..] + [o];
      AllSucceeded(os[1..], o);
    }
  }

  /** What the calls must be, in terms of the pairs: each operation started, and all but the last finished. */
  predicate Called(context: Pointer, pairs: seq<Pair>, os: seq<Outcome>, events: seq<Event>)
    requires |os| < |pairs|
  {
    && |events| == 2 * |os| + 1
    && (forall k :: 0 <= k <= |os| ==> StartedAs(context, pairs[k], Previous(os, k), events[2 * k]))
    && (forall k :: 0 <= k < |os| ==> FinishedAs(pairs[k], events[2 * k + 1]))
  }

  predicate StartedAs(context: Pointer, pair: Pair, previous: Pointer, event: Event) {
    && event.Started? && event.previous == previous
    && event.data.callback == pair.callback && event.data.context == context
  }

  predicate FinishedAs(pair: Pair, event: Event) {
    event.Finished? && Some(event.finish) == pair.finish
  }

  lemma {:induction false} CallsAt(callbacks: seq<CallbackData>, os: seq<Outcome>, n: nat, k: nat)
    requires k < n <= |callbacks|
    ensures Calls(callbacks, os, n)[2 * k] == StartOf(callbacks, os, k)
    ensures Calls(callbacks, os, n)[2 * k + 1] == Finished(callbacks[k].finish)
  {
    if k < n - 1 { CallsAt(callbacks, os, n - 1, k); }
    hide StartOf;
  }

  lemma {:induction false} CallsAreCalled(context: Pointer, pairs: seq<Pair>, os: seq<Outcome>)
    requires Addable(pairs, {}) && |os| < |pairs|
    ensures var (data, n) := (DataOf(pairs, context), |os|);
            Called(context, pairs, os, Calls(data, os, n) + [StartOf(data, os, n)])
  {
    var (data, n) := (DataOf(pairs, context), |os|);
    forall k | 0 <= k < n
      ensures StartedAs(context, pairs[k], Previous(os, k), Calls(data, os, n)[2 * k])
              && FinishedAs(pairs[k], Calls(data, os, n)[2 * k + 1]) {
      CallsAt(data, os, n, k);
    }
    hide Calls, Previous;
  }

  /**
   * What is added and run is what is called: when some results have come in, the next operation
   * of the pairs has started with the last of them, and the operation before it was finished by its own callback.
   */
  lemma {:induction false} AddedIsCalled(context: Pointer, pairs: seq<Pair>, os: seq<Outcome>)
    requires Addable(pairs, {}) && |os| < |pairs| && Successes(os) == |os|
    ensures var r := ApplyAll(Begun(Added(INITIAL, context, pairs, {}).0).0, Resolves(os));
            r.state == RUNNING && r.index == |os| && Called(context, pairs, os, r.events)
  {
    var s := Added(INITIAL, context, pairs, {}).0;
    assert s == State(DataOf(pairs, context), 0, PENDING, []);
    RunTellsStory(s, os);
    CallsAreCalled(context, pairs, os);
    hide Successes, ApplyAll, Resolves, Calls, StartOf, Called, DataOf, Begun, Inv;
    var calls := Calls(s.callbacks, os, |os|) + [StartOf(s.callbacks, os, |os|)];
    assert [] + calls == calls;
    assert After(s, os).events == calls;
  }

  // ----- The sequence as an object -----

  class AsyncSeq {
    var callbacksList: seq<CallbackData>
    var currentCallbackIndex: nat
    var state: SeqState
    ghost var events: seq<Event>

    ghost function Value(): State
      reads this
    {
      State(callbacksList, currentCallbackIndex, state, events)
    }

    ghost predicate Valid()
      reads this
    {
      Inv(Value())
    }

    constructor ()
      ensures Valid() && Value() == INITIAL
    {
      callbacksList, currentCallbackIndex, state, events := [], 0, PENDING, [];
    }

    /** GIO_Async_Seq_Addv and seq_add_internal: on a failure what was added so far is removed. */
    method Add(context: Pointer, pairs: seq<Pair>, noMemory: set<nat>) returns (ok: bool)
      requires Valid()
      modifies this`callbacksList
      ensures Valid() && (Value(), ok) == Added(old(Value()), context, pairs, noMemory)
    {
      if state != PENDING {
        return false;
      }
      var lengthBefore := |callbacksList|;
      var i := 0;
      while i < |pairs|
        invariant 0 <= i <= |pairs| && Addable(pairs[..i], noMemory)
        invariant callbacksList == old(callbacksList) + DataOf(pairs[..i], context)
      {
        if pairs[i].finish == None || i in noMemory {
          callbacksList := callbacksList[..lengthBefore];
          return false;
        }
        callbacksList := callbacksList + [CallbackData(pairs[i].callback, pairs[i].finish.value, context)];
        i := i + 1;
      }
      assert pairs[..|pairs|] == pairs;
      return true;
    }

    /** GIO_Async_Seq_Run_Async */
    method RunAsync() returns (ok: bool)
      requires Valid()
      modifies this
      ensures Valid() && (Value(), ok) == Begun(old(Value()))
    {
      if state == RUNNING {
        return false;
      }
      currentCallbackIndex := 0;
      state := RUNNING;
      if |callbacksList| > 0 {
        events := events + [Started(callbacksList[0], None)];
      } else {
        state := COMPLETE;
        events := events + [Completed(None)];
      }
      return true;
    }

    /** resolve_callback */
    method ResolveCallback(o: Outcome)
      requires Valid()
      modifies this
      ensures Valid() && Value() == Resolve(old(Value()), o)
    {
      if state == RUNNING {
        events := events + [Finished(callbacksList[currentCallbackIndex].finish)];
        match o {
          case Failure(e) =>
            state := ERROR;
            events := events + [Failed(e)];
          case Success(v) =>
            currentCallbackIndex := currentCallbackIndex + 1;
            if currentCallbackIndex < |callbacksList| {
              events := events + [Started(callbacksList[currentCallbackIndex], v)];
            } else {
              state := COMPLETE;
              events := events + [Completed(v)];
            }
        }
      } else {
        state := ERROR;
        events := events + [NotRunning];
      }
    }
  }
}
